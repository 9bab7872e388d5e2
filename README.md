# WeighWords in Dafny

WeighWords finds the terms that characterise a document against a background
corpus. It uses the parsimonious language model: a smoothed mixture of a
document model and a corpus model, re-estimated by expectation maximisation
(EM). The mass that the corpus already explains drains out of the document
model, so what is left ranks the document's own terms.

This project models three versions of that core:

- `weighwords/__init__.py` is the packaged class `WeighWords`.
  - The constructor builds the corpus model from lists of terms.
  - `_document_model` counts a document's terms and applies a frequency
    threshold.
  - `_EM` runs the EM loop.
  - `top` chains the two.
- `weighwords.py` is an earlier snapshot of the same class. As written, every
  method of it stops on a name that is not defined. It is modelled twice:
  - once as the evidently intended class;
  - once, name by name, as the text is written, down to the statement that
    raises (see "## Findings").
- `parsimonious.py` holds the same three steps as free functions over
  whitespace-separated corpus lines:
  - `corpus_model` reads lines `token pos freq rest`;
  - `document_model` reads a document's lines against the vocabulary;
  - `EM` updates its arguments in place.

Modules:

| module | file | contents |
|---|---|---|
| `LogSpace`, `Python` | `logspace.dfy` | numpy's extended log-probabilities (`-inf`, finite, `+inf`, `nan`) with IEEE addition; `log` and `logaddexp` as primitives; Python exceptions and outcomes |
| `Vocabulary` | `vocabulary.dfy` | the `setdefault` vocabulary, corpus frequencies and the corpus model, as functions and as the loops that build them |
| `TermFrequency` | `termfreq.dfy` | term-frequency vectors, the threshold, distinct-term counts and the initial document model |
| `EMLoop` | `emloop.dfy` | the E-step, M-step and iteration as functions, and the loop over arrays proved against them |
| `WeighWordsPackage` | `package.dfy` | the packaged class |
| `WeighWordsSnapshot` | `snapshot.dfy` | the snapshot as intended |
| `SnapshotAsWritten` | `snapshot_text.dfy` | the snapshot as written: which name each statement reads, and where it raises |
| `Records` | `records.dfy` | `str.split()`, `int()` and `float()` on the fields of a line |
| `Parsimonious` | `parsimonious.dfy` | `corpus_model`, `document_model` and `EM` |

What is proved:

- **Shape and aliasing.**
  - Each operation is tied to a specification function of its inputs.
  - Each states what it allocates fresh and what it leaves unchanged.
  - The packaged `_EM` changes none of its arguments; the free `EM` shifts
    `p_corpus` and `p_term` in place.
- **The vocabulary.** It is dense and injective, and its indices are stable
  as tokens are added.
- **The counts.** Corpus frequencies are the weighted occurrence counts, and
  their total is the sum of the weights.
- **The document model.**
  - `tf[vocab[t]]` is the number of occurrences of `t`, or 0 below the
    threshold.
  - The packaged initial document model `log(tf > 0) - log(n_distinct)` is
    finite exactly on the terms with positive thresholded frequency and
    `-inf` elsewhere, provided some term reaches the threshold; when none
    does, every entry is `nan`.
  - The line-by-line document models of the snapshot and of
    `parsimonious.py` are `0 - log(n_distinct)` exactly on the terms read
    and `-inf` elsewhere, for a non-empty document. With every frequency
    positive, `n_distinct` is the number of terms with positive `tf`; a
    repeated line with frequency 0 is counted twice.
- **Support through EM.** Over any number of EM iterations, every iterate is
  finite exactly on the terms with positive (thresholded) frequency and
  `-inf` on every other term. The hypotheses are:
  - the packaged class: `0 < w < 1`, and some term of the document reaches
    the threshold;
  - the snapshot: `0 < w < 1`, and a non-empty document;
  - `parsimonious.py`: every corpus frequency at least 1, a non-empty
    document with every frequency positive, `w_unigrams > 0` and
    `1 - w_unigrams - w_bigrams > 0`.

The numeric values of logarithms are not modelled. `log` and `logaddexp` are
uninterpreted on positive finite arguments, and exact where numpy's result is
an infinity or `nan`. `parsimonious.py` uses base 2 (`log2`, `logaddexp2`);
the class uses natural logarithms. Both are the same `Numerics` parameter.

## Model

| member | source | states |
|---|---|---|
| `WeighWordsPackage.WeighWords.constructor` | weighwords/__init__.py:37-51 | stores `thresh` and `w`; `vocab` numbers every token of every document by first occurrence, and `p_corpus[i]` is `log(cf[i]) - log(sum(cf))` for the occurrence count `cf[i]` |
| `WeighWordsPackage.WeighWords.DocumentModel` | weighwords/__init__.py:92-103 | raises `KeyError` exactly when some token is not in `vocab`, at the first such token; otherwise fresh `tf`, the thresholded counts over the vocabulary, and `p_term = log(tf > 0) - log(n_distinct)` |
| `WeighWordsPackage.WeighWords.EM` | weighwords/__init__.py:126-148 | `n_iter` defaults to 50 and `w` to the stored weight; leaves `tf`, `p_term` and `p_corpus` unchanged; no iteration returns a fresh copy of `p_term`; otherwise the `n_iter`-th EM iterate from the corpus model shifted by `log(1 - w)`, or `ValueError` from reducing an empty array |
| `WeighWordsPackage.WeighWords.Posterior` | weighwords/__init__.py:65-66 | the document model followed by EM: `KeyError` at the first unknown token, else a fresh array holding the EM iterate started from the initial document model |
| `WeighWordsPackage.BuildDocumentModel` | weighwords/__init__.py:92-103 | the same result as `DocumentModel`, for any vocabulary whose indices are below its size |
| `WeighWordsPackage.CountTokens` | weighwords/__init__.py:92-95 | the counting loop: fresh `tf` equal to the occurrence counts, or `KeyError` at the first unknown token |
| `WeighWordsPackage.CorpusModelFinite` | weighwords/__init__.py:47-51 | the corpus model has one entry per vocabulary term, and every entry is finite |
| `WeighWordsPackage.DocumentModelCounts` | weighwords/__init__.py:94-98 | `tf[vocab[t]]` is the number of occurrences of `t` in `d` when that reaches `thresh`, and 0 otherwise |
| `WeighWordsPackage.PipelineSupport` | weighwords/__init__.py:65-66 | for `0 < w < 1` and a document with some term reaching the threshold, every EM iterate is finite exactly where `tf > 0` and `-inf` elsewhere |
| `Vocabulary.CountTerms` | weighwords/__init__.py:39-45 | the loop yields the first-occurrence vocabulary of all tokens and their occurrence counts |
| `Vocabulary.CountDocument` | weighwords/__init__.py:43-45 | the inner loop extends the tables built from the tokens read so far by the tokens of one document |
| `Vocabulary.TallyOne` | weighwords/__init__.py:44-45 | one `setdefault` and one `cf[i] += x` keep the tables equal to the vocabulary and weighted counts of the keys read |
| `Vocabulary.FillCorpusLogProb` | weighwords/__init__.py:47-51 | a fresh array with one entry per index, entry `i` being `log(cf[i]) - log(sum of cf)` |
| `Vocabulary.BuildCorpusModel` | weighwords/__init__.py:39-51 | the vocabulary and corpus model of the concatenated documents |
| `Vocabulary.FirstSeenIsDense` | weighwords/__init__.py:44 | `setdefault(tok, len(vocab))` numbers the distinct tokens `0 .. n-1` without repetition, and a token is in `vocab` exactly when it was read |
| `Vocabulary.FirstSeenStable` | weighwords/__init__.py:44 | reading more tokens never changes an index already given |
| `Vocabulary.FirstSeenNext` | weighwords/__init__.py:44 | a new token gets the index `len(vocab)` |
| `Vocabulary.SnocVocab` | weighwords/__init__.py:44 | reading a token leaves `vocab` unchanged if the token is known, and adds it at `len(vocab)` otherwise |
| `Vocabulary.SnocTally` | weighwords/__init__.py:44-45 | reading a key with weight `x` adds `x` to the count at its index, starting from 0 for a new index |
| `Vocabulary.TallyMeaning` | weighwords/__init__.py:44-45 | `cf` has an entry for every index below `len(vocab)`, and `cf[vocab[k]]` is the total weight read for `k` |
| `Vocabulary.WeightOnes` | weighwords/__init__.py:45 | with weight 1 per token, the weight of `k` is its number of occurrences |
| `Vocabulary.TallyTotal` | weighwords/__init__.py:47 | `sum(cf.itervalues())` equals the sum of all weights read |
| `Vocabulary.CountsPositive` | weighwords/__init__.py:45-47 | every count is at least 1, and the counts sum to the number of tokens |
| `Vocabulary.CountTermsMeaning` | weighwords/__init__.py:39-47 | the vocabulary is dense, `cf[vocab[k]]` is the multiplicity of `k`, counts are positive and sum to the corpus size |
| `Vocabulary.CorpusLogProbFinite` | weighwords/__init__.py:49-51 | with positive counts each entry is the finite `log(cf[i]) - log(total)` |
| `Vocabulary.CorpusLogProbAllFinite` | weighwords/__init__.py:47-51 | the corpus model of any corpus is finite on every vocabulary index |
| `TermFrequency.IndicesSnoc` | weighwords/__init__.py:94-95 | reading one more token appends its index |
| `TermFrequency.TermFreqSnoc` | weighwords/__init__.py:95 | `tf[i] += x` adds `x` to entry `i` of the frequency vector and nothing else |
| `TermFrequency.TermFreqCounts` | weighwords/__init__.py:94-95 | for an injective vocabulary, `tf[vocab[t]]` is the number of occurrences of `t` |
| `TermFrequency.IndexTotalNonNegative` | weighwords/__init__.py:95 | frequencies built from non-negative increments are non-negative |
| `TermFrequency.TermFreqNonNegative` | weighwords/__init__.py:94-98 | `tf` is non-negative before and after the threshold |
| `TermFrequency.ThresholdZero` | weighwords/__init__.py:97-98 | with the default `thresh=0`, the threshold leaves a non-negative `tf` unchanged |
| `TermFrequency.ThresholdIdempotent` | weighwords/__init__.py:97-98 | applying the threshold twice is applying it once |
| `TermFrequency.ThresholdPositive` | weighwords/__init__.py:97-98 | a thresholded entry is positive if and only if it was positive and at least `thresh` |
| `TermFrequency.CountPositiveIsSize` | weighwords/__init__.py:99 | `(tf > 0).sum()` is the number of indices with a positive entry |
| `TermFrequency.CountPositiveUpdate` | weighwords/__init__.py:99 | how `(tf > 0).sum()` changes when one entry changes |
| `TermFrequency.InitialSupport` | weighwords/__init__.py:101 | with some positive entry, `log(tf > 0) - log(n_distinct)` is finite exactly where `tf > 0` and `-inf` elsewhere; with none, every entry is `nan` |
| `TermFrequency.IndexTotalAbsent` | parsimonious.py:45-48 | an index never read has frequency 0 |
| `TermFrequency.IndexTotalPositive` | parsimonious.py:45-48 | with positive increments, an index has positive frequency exactly when it was read |
| `TermFrequency.TouchesSnoc` | parsimonious.py:45-47 | `n_distinct` grows by one exactly when `tf[i]` was still 0 |
| `TermFrequency.TouchesFirst` | parsimonious.py:45-47 | a non-empty document gives `n_distinct >= 1` |
| `TermFrequency.TouchesCountsDistinct` | parsimonious.py:41-48 | with positive increments, the `n_distinct` counted while reading equals the number of positive entries of `tf` |
| `TermFrequency.TouchedSupport` | parsimonious.py:37-50 | the initial `p_term` is finite exactly on the indices read and `-inf` on every other index |
| `TermFrequency.TouchedMatchesInitial` | parsimonious.py:32-33 | with positive increments, the `p_term` built while reading equals `log(tf > 0) - log(n_distinct)` |
| `TermFrequency.ZeroFrequencyOvercount` | parsimonious.py:45-48 | two lines with frequency 0 for the same term leave `tf` all zero but count two distinct terms |
| `TermFrequency.AddOccurrence` | parsimonious.py:45-48 | one occurrence of index `i` with weight `x`: sets `p_term[i] = 0` and counts a distinct term when `tf[i] == 0`, then adds `x` to `tf[i]`; the arrays equal the frequencies, touched set and `n_distinct` of the occurrences read so far plus this one |
| `EMLoop.Iterate` | weighwords/__init__.py:140-146 | every iterate has the length of `p_term` |
| `EMLoop.ReduceKind` | weighwords/__init__.py:146 | `logaddexp.reduce` of log-probabilities is a log-probability, finite if and only if some entry is finite |
| `EMLoop.EntryKeepsSupport` | weighwords/__init__.py:142-143 | with a finite corpus entry and weight, one E-step entry is finite where `tf > 0` and `-inf` where `tf == 0` |
| `EMLoop.EStepKeepsSupport` | weighwords/__init__.py:142-143 | the E-step keeps the support of `p_term` equal to that of `tf` |
| `EMLoop.MStepKeepsSupport` | weighwords/__init__.py:146 | the M-step normalisation keeps the support when some entry of `tf` is positive |
| `EMLoop.StepKeepsSupport` | weighwords/__init__.py:141-146 | one iteration keeps the support |
| `EMLoop.IterateKeepsSupport` | weighwords/__init__.py:140-146 | any number of iterations keeps the support |
| `EMLoop.Iterations` | parsimonious.py:66-72 | the loop over arrays: the first iteration shifts the caller's `p_term` in place, and the result is the `n_iter`-th iterate (or `p_term` itself when `n_iter <= 0`, or `ValueError` on an empty array) |
| `EMLoop.Iteration` | parsimonious.py:68-72 | one E-step and M-step: shifts `p_term` in place and returns a fresh array equal to `Step`, or `ValueError` when reducing an empty array |
| `EMLoop.RunEM` | weighwords/__init__.py:131-146 | the body of `_EM`: a fresh result equal to the iterate from copies, leaving every argument unchanged |
| `EMLoop.ShiftArray` | weighwords/__init__.py:134 | `self.p_corpus + w_` is a fresh shifted copy |
| `EMLoop.LogArray` | weighwords/__init__.py:135 | `np.log(tf)` is a fresh array of logarithms |
| `EMLoop.CopyArray` | weighwords/__init__.py:139 | `np.array(p_term)` is a fresh equal copy |
| `EMLoop.EMSupport` | weighwords/__init__.py:126-148 | started from `log(tf > 0) - log(n_distinct)` with finite corpus model and weights, every iterate is finite exactly where `tf > 0` |
| `EMLoop.TouchedEMSupport` | parsimonious.py:55-74 | started from the document model built line by line, every iterate is finite exactly on the indices read and `-inf` elsewhere |
| `WeighWordsSnapshot.WeighWords.constructor` | weighwords.py:35-47 | with `self.vocab` and `self.p_corpus` read where the text names `vocab` and `p_corpus`, and `w` stored for `_EM`: the corpus model is that of the concatenated documents |
| `WeighWordsSnapshot.WeighWords.DocumentModel` | weighwords.py:86-100 | reading `self.vocab`: `KeyError` at the first unknown token, else fresh `tf` with the occurrence counts and `p_term` equal to `0 - log(n_distinct)` on the terms read and `-inf` elsewhere for a non-empty document (`nan` everywhere for an empty one) |
| `WeighWordsSnapshot.WeighWords.EM` | weighwords.py:123-143 | reading the stored weight: leaves its arguments unchanged and returns the `n_iter`-th iterate (50 by default), a copy for `n_iter <= 0`, or `ValueError` on an empty vocabulary |
| `WeighWordsSnapshot.WeighWords.Posterior` | weighwords.py:59-60 | calling `_document_model` and `_EM`: `KeyError` at the first unknown token, else a fresh array holding the EM iterate from the document model |
| `WeighWordsSnapshot.BuildDocumentModel` | weighwords.py:86-100 | the same result as `DocumentModel` for any vocabulary whose indices are below its size |
| `WeighWordsSnapshot.ReadTokens` | weighwords.py:86-96 | the token loop: `tf` counts occurrences, `p_term` is 0 exactly on the indices read, and `n_distinct` counts the indices first read |
| `WeighWordsSnapshot.MatchesPackage` | weighwords.py:90-98 | the snapshot's document model equals the packaged one with `thresh=0` |
| `WeighWordsSnapshot.PipelineSupport` | weighwords.py:59-60 | for `0 < w < 1` and a non-empty document, every EM iterate is finite exactly on the document's terms and `-inf` elsewhere |
| `SnapshotAsWritten.InitStopsOnVocab` | weighwords.py:38-45 | as written, `__init__` raises `NameError: vocab` at line 40 on the first token, or at line 45 when the corpus has no tokens |
| `SnapshotAsWritten.InitStopsOnPCorpus` | weighwords.py:45-47 | with `vocab` bound, `__init__` still raises `NameError: p_corpus` at line 47 on any corpus with a token, and only on an empty one does every name it reads resolve |
| `SnapshotAsWritten.InitPrefixRuns` | weighwords.py:33-45 | with `vocab` bound, lines 33-46 get through (every name and attribute they read resolves) and bind `self` and `c_size` |
| `SnapshotAsWritten.InitRepairedRuns` | weighwords.py:33-47 | with both names repaired, every name and attribute `__init__` reads resolves, on every corpus |
| `SnapshotAsWritten.TopStops` | weighwords.py:59-62 | within `top`'s own statements: as written it raises `AttributeError: document_model` at line 59; with that repaired it raises `AttributeError: EM` at line 60; with both repaired every name and attribute they read resolves (the called methods, and the key function `p_term[t]` that `nlargest` calls, are not followed) |
| `SnapshotAsWritten.TopTail` | weighwords.py:60-62 | after line 59, line 60 raises on `self.EM`; on `self._EM`, every name and attribute lines 60 and 62 read resolves |
| `SnapshotAsWritten.DocModelStops` | weighwords.py:84-100 | as written, `_document_model` raises `NameError: vocab` at line 86 on every document; reading `self.vocab`, every name and attribute it reads resolves (a `KeyError` at line 92 on an unknown token is a value, not a name, and is not followed here) |
| `SnapshotAsWritten.EMStops` | weighwords.py:121-143 | as written, `_EM` raises `UnboundLocalError: w` at line 126 for any number of iterations; reading `self.w`, every name and attribute it reads resolves |
| `Records.Split` | parsimonious.py:16 | every field of `ln.split()` is non-empty and has no whitespace |
| `Records.SplitJoin` | parsimonious.py:16 | splitting a line of fields joined by single spaces gives the fields back |
| `Records.ParseDigits` | parsimonious.py:18 | `int` reads a string of digits, and the same string after `-`, as its decimal value |
| `Records.ParseShowInt` | parsimonious.py:18 | `int(str(n)) == n` for every integer |
| `Records.IntIsFloat` | parsimonious.py:48 | a field `int` accepts, `float` accepts with the same value |
| `Parsimonious.CorpusModel` | parsimonious.py:8-26 | `ValueError` exactly when some line does not split into four fields or has a frequency that is not an integer; otherwise the first-occurrence vocabulary of the `(tok, pos)` keys, and a fresh `p_corpus` of `log2(cf[i]) - log2(sum(cf))` with `cf` summing the frequencies per key |
| `Parsimonious.CountLines` | parsimonious.py:15-18 | the inner loop: `ValueError` exactly when some line of the document is unreadable; otherwise the tables extended by the document's records |
| `Parsimonious.AddRecord` | parsimonious.py:17-18 | `setdefault` followed by `cf[i] += int(freq)` |
| `Parsimonious.CountStep` | parsimonious.py:17-18 | one record keeps the tables equal to the vocabulary and counts of the records read |
| `Parsimonious.RecordsAppend` | parsimonious.py:14-18 | the records of two runs of lines are the records of each, in order |
| `Parsimonious.UnreadableDocument` | parsimonious.py:14-16 | an unreadable line in any document makes the whole corpus unreadable |
| `Parsimonious.KeyCounts` | parsimonious.py:17-18 | the vocabulary is dense, holds only keys read, and `cf[vocab[key]]` is the summed frequency of `key` |
| `Parsimonious.CorpusCounts` | parsimonious.py:14-18 | the same for the keys and frequencies read from the corpus lines |
| `Parsimonious.WeightPositive` | parsimonious.py:18 | with every frequency at least 1, each key's summed frequency is at least 1 |
| `Parsimonious.CorpusModelFinite` | parsimonious.py:20-24 | with every frequency at least 1, every entry of `p_corpus` is finite |
| `Parsimonious.DocumentModel` | parsimonious.py:29-52 | fails exactly when some line fails to read, with the exception of the first such line: `ValueError` for a line that is not four fields, `KeyError` for an unknown key, `ValueError` for a frequency that is not a float; otherwise fresh `tf` with the summed frequencies per index, and `p_term` equal to `0 - log2(n_distinct)` on the indices read and `-inf` elsewhere for a non-empty document (`nan` everywhere for an empty one) |
| `Parsimonious.ReadLines` | parsimonious.py:37-48 | the line loop: on success `tf`, the `p_term` that is 0 exactly on the indices read, and `n_distinct` as counted; on failure the first failing line's exception |
| `Parsimonious.FailsAt` | parsimonious.py:42-44 | a line that fails after readable lines is the first failure |
| `Parsimonious.ReadStep` | parsimonious.py:42-48 | a readable line appends its index and frequency to those read |
| `Parsimonious.LineIndicesBounded` | parsimonious.py:44 | every index read from the vocabulary is below its size |
| `Parsimonious.DocumentModelSupport` | parsimonious.py:32-33 | for a non-empty document, `p_term` is finite exactly on the terms read and `-inf` elsewhere; with positive frequencies, `n_distinct` is the number of terms with non-zero `tf` |
| `Parsimonious.EM` | parsimonious.py:55-74 | shifts the caller's `p_corpus` by `log2(1 - w_unigrams - w_bigrams)` in place; with iterations, shifts the caller's `p_term` by `log2(w_unigrams)` in place and returns the `n_iter`-th iterate (or `ValueError` on empty arrays); without, returns `p_term` itself unchanged; leaves `tf` unchanged |
| `Parsimonious.ShiftInPlace` | parsimonious.py:63 | `p_corpus += w_` adds `w_` to every entry in place |
| `Parsimonious.PipelineSupport` | parsimonious.py:8-74 | for readable corpus lines with frequencies at least 1, a known non-empty document with positive frequencies, `w_unigrams > 0` and `1 - w_unigrams - w_bigrams > 0`, every EM iterate is finite exactly on the document's terms and `-inf` elsewhere |

## Left out

- `top`'s ranking: `nlargest(k, ...)` over the posterior is not modelled. `Posterior` stops at the posterior array. This covers `weighwords/__init__.py:68-69` and `weighwords.py:62`. The snapshot's key function `p_term[t]` indexes the array by the term rather than by `vocab[t]`, and that is not modelled either.
- Logging calls: they have no effect on any result.
- Floating-point values and rounding.
  - The finite results of `log`, `log2`, `logaddexp` and `logaddexp2` are uninterpreted reals.
  - Frequencies are exact reals, and corpus counts are unbounded integers.
  - Only where a value is finite, `-inf` or `nan` is proved, not what it is.
- NumPy broadcasting and dtypes: arrays are `array<LogP>` or `array<real>` of one length. The lengths agree by precondition, as they do in every call the sources make.
- `Records.ParseFloat`: does not accept the `inf`, `nan` and `infinity` spellings that Python's `float()` accepts. The model reports those as `ValueError`.
- `Records.ParseInt`: Python 2 `int()` also accepts surrounding whitespace. Fields from `split()` never have any, so that case does not arise.
- `Parsimonious.EM`: requires `p_corpus` and `p_term` to be different arrays. The model does not cover a caller passing the same array twice.
- `Parsimonious.DocumentModel`, `WeighWordsPackage.WeighWords.DocumentModel`, `WeighWordsSnapshot.WeighWords.DocumentModel`: a `KeyError` carries the position of the offending line or token, not the key itself.
- `Parsimonious.CorpusModel`, `Parsimonious.DocumentModel`: each line is read whole before the tables are updated. A line that fails in `int()` or `float()` has already passed `vocab.setdefault` (line 17) or `vocab[...]` (line 44). Only the local tables see that difference, and they are discarded with the exception, so it does not change any result.
- `Parsimonious.DocumentModel`, `Parsimonious.ReadLines`: require every index in `vocab` to be below its size. `document_model` accepts any dict; an index out of range would raise `IndexError`, and a negative one would wrap around. The only vocabulary the module builds, that of `corpus_model`, is dense (`Parsimonious.CorpusCounts`), so the case does not arise there.
- `dict` iteration order: `cf.iteritems()` writes each index exactly once, so the corpus model is stated in index order.
- `np.logaddexp.reduce`: modelled as a left fold, the order in which numpy reduces; the rounding of each step is not modelled.
- Degenerate inputs are not excluded by preconditions. They follow numpy's extended arithmetic instead:
  - an empty corpus gives `log(0) = -inf`;
  - a document with no term gives `n_distinct = 0` and `nan` entries;
  - reducing an empty array raises `ValueError`.
- `SnapshotAsWritten`: models which names each statement reads and binds, and which exception the first unbound one raises. It does not model values. A snapshot object as written cannot be built at all, because `__init__` always raises.
- `example/dickens.py` and `setup.py` are not part of this model: a command-line demo and packaging.

## Findings

| source | as written | input that shows it | evidently intended | confidence | as-written member | corrected member |
|---|---|---|---|---|---|---|
| weighwords.py:40 | `vocab.setdefault(tok, len(vocab))` reads a name that is neither local nor global; only the attribute `self.vocab` is bound | any corpus with a token, e.g. `[["a"]]`: `NameError` at line 40; with no token, at line 45 | read `self.vocab` | not executed | `SnapshotAsWritten.InitStopsOnVocab` | `WeighWordsSnapshot.WeighWords.constructor` |
| weighwords.py:47 | `p_corpus[i] = ...` writes a name that is never bound; the array is `self.p_corpus` | `[["a"]]` with `vocab` repaired: `NameError` at line 47 | write `self.p_corpus[i]` | not executed | `SnapshotAsWritten.InitStopsOnPCorpus` | `WeighWordsSnapshot.WeighWords.constructor` |
| weighwords.py:59 | `top` calls `self.document_model` and `self.EM`; the class defines `_document_model` and `_EM` | any call of `top`: `AttributeError` at line 59; with that name repaired, `top`'s own statements next stop at line 60 (the call at line 59 itself then stops at line 86) | call `self._document_model` and `self._EM` | not executed | `SnapshotAsWritten.TopStops` | `WeighWordsSnapshot.WeighWords.Posterior` |
| weighwords.py:86 | `len(vocab)` reads a name that is neither local nor global | any document, e.g. `["a"]`: `NameError` at line 86 | `len(self.vocab)` | not executed | `SnapshotAsWritten.DocModelStops` | `WeighWordsSnapshot.WeighWords.DocumentModel` |
| weighwords.py:126 | `np.log(1 - w)` reads `w`, which line 127 makes local to `_EM` and which is not yet bound | any call, any `n_iter`: `UnboundLocalError` at line 126 | the weight given to `__init__`, stored as `self.w` | not executed | `SnapshotAsWritten.EMStops` | `WeighWordsSnapshot.WeighWords.EM` |
