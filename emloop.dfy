/**
  The shape of the EM loop of `_EM` / `EM`: each iteration shifts `p_term` by
  the log of the document weight in place, forms the E-step array
  `tf + p_term - logaddexp(p_corpus, p_term)`, and rebinds `p_term` to the
  M-step array `E - logaddexp.reduce(E)`.

  The values are log-space values whose finite results are uninterpreted;
  what is proved is the support: where `tf > 0` every iterate is finite, and
  where `tf == 0` it stays `log 0`.
 */
module EMLoop {
  import opened LogSpace
  import opened Python
  import opened TermFrequency

  /** `v + c` on a whole array. */
  function Shift(v: seq<LogP>, c: LogP): seq<LogP>
  {
    seq(|v|, i requires 0 <= i < |v| => Add(v[i], c))
  }

  /** `np.log(tf)`. */
  function LogAll(num: Numerics, tf: seq<real>): seq<LogP>
  {
    seq(|tf|, i requires 0 <= i < |tf| => Log(num, tf[i]))
  }

  /** The E-step: `tf + p_term - logaddexp(p_corpus, p_term)`. */
  function EStep(num: Numerics, logTf: seq<LogP>, pc: seq<LogP>, pt: seq<LogP>): seq<LogP>
    requires |logTf| == |pc| == |pt|
  {
    seq(|pt|, i requires 0 <= i < |pt| => Sub(Add(logTf[i], pt[i]), LogAddExp(num, pc[i], pt[i])))
  }

  /** `np.logaddexp.reduce(e)`: a left fold from the first element; an empty
      array has no identity to start from. */
  function Reduce(num: Numerics, e: seq<LogP>): LogP
    requires e != []
  {
    if |e| == 1 then e[0] else LogAddExp(num, Reduce(num, e[..|e| - 1]), e[|e| - 1])
  }

  /** The M-step: `E - logaddexp.reduce(E)`. */
  function MStep(num: Numerics, e: seq<LogP>): seq<LogP>
    requires e != []
  {
    seq(|e|, i requires 0 <= i < |e| => Sub(e[i], Reduce(num, e)))
  }

  /** One iteration of the loop body, `lw` being the log of the document weight. */
  function Step(num: Numerics, logTf: seq<LogP>, pc: seq<LogP>, pt: seq<LogP>, lw: LogP): seq<LogP>
    requires |logTf| == |pc| == |pt| > 0
  {
    MStep(num, EStep(num, logTf, pc, Shift(pt, lw)))
  }

  /** `p_term` after `n` iterations of `for i in xrange(n)`; a count of zero
      or less runs no iteration. */
  function Iterate(num: Numerics, logTf: seq<LogP>, pc: seq<LogP>, pt: seq<LogP>, lw: LogP, n: int): (r: seq<LogP>)
    requires |logTf| == |pc| == |pt| > 0
    ensures |r| == |pt|
    decreases n
  {
    if n <= 0 then pt else Step(num, logTf, pc, Iterate(num, logTf, pc, pt, lw, n - 1), lw)
  }

  // ---------------------------------------------------------------------
  // Support

  /** Reducing probabilities (finite or `log 0`): the result is again one,
      and it is finite exactly when some element is. */
  lemma {:induction false} ReduceKind(num: Numerics, e: seq<LogP>)
    requires e != [] && forall i | 0 <= i < |e| :: IsLogProb(e[i])
    ensures IsLogProb(Reduce(num, e))
    ensures Reduce(num, e).Finite? <==> exists i | 0 <= i < |e| :: e[i].Finite?
  {
    if |e| > 1 {
      var n := |e| - 1;
      ReduceKind(num, e[..n]);
      if e[n].Finite? {
        assert e[n].Finite?;
      } else if exists i | 0 <= i < n :: e[..n][i].Finite? {
        var i :| 0 <= i < n && e[..n][i].Finite?;
        assert e[i].Finite?;
      } else {
        forall i | 0 <= i < |e| ensures !e[i].Finite? {
          if i < n {
            assert e[i] == e[..n][i];
          }
        }
      }
    }
  }

  /** The hypotheses under which the support is kept: frequencies are
      non-negative and at least one is positive, the shifted corpus model is
      finite everywhere and the document weight has a finite log. */
  ghost predicate SupportHypotheses(tf: seq<real>, pc: seq<LogP>, lw: LogP)
  {
    && NonNegative(tf)
    && (exists i | 0 <= i < |tf| :: tf[i] > 0.0)
    && |pc| == |tf|
    && (forall i | 0 <= i < |pc| :: pc[i].Finite?)
    && lw.Finite?
  }

  /** One entry of the E-step: finite where `tf > 0`, `log 0` where `tf == 0`. */
  lemma EntryKeepsSupport(num: Numerics, t: real, c: LogP, p: LogP, lw: LogP)
    requires t >= 0.0 && c.Finite? && lw.Finite?
    requires (t > 0.0 ==> p.Finite?) && (t <= 0.0 ==> p == NegInf)
    ensures var e := Sub(Add(Log(num, t), Add(p, lw)), LogAddExp(num, c, Add(p, lw)));
      (t > 0.0 ==> e.Finite?) && (t <= 0.0 ==> e == NegInf)
  {
  }

  /** The E-step array has the support of `tf`. */
  lemma EStepKeepsSupport(num: Numerics, tf: seq<real>, pc: seq<LogP>, pt: seq<LogP>, lw: LogP)
    requires SupportHypotheses(tf, pc, lw)
    requires SupportedBy(pt, tf)
    ensures SupportedBy(EStep(num, LogAll(num, tf), pc, Shift(pt, lw)), tf)
  {
    var e := EStep(num, LogAll(num, tf), pc, Shift(pt, lw));
    forall i | 0 <= i < |e| ensures (tf[i] > 0.0 ==> e[i].Finite?) && (tf[i] <= 0.0 ==> e[i] == NegInf) {
      EntryKeepsSupport(num, tf[i], pc[i], pt[i], lw);
    }
  }

  /** The M-step keeps the support of an array with at least one finite entry. */
  lemma MStepKeepsSupport(num: Numerics, tf: seq<real>, e: seq<LogP>)
    requires SupportedBy(e, tf) && exists i | 0 <= i < |tf| :: tf[i] > 0.0
    ensures SupportedBy(MStep(num, e), tf)
  {
    var j :| 0 <= j < |tf| && tf[j] > 0.0;
    ReduceKind(num, e);
  }

  /** One iteration keeps the support: finite where `tf > 0`, `log 0` where
      `tf == 0`. */
  lemma StepKeepsSupport(num: Numerics, tf: seq<real>, pc: seq<LogP>, pt: seq<LogP>, lw: LogP)
    requires SupportHypotheses(tf, pc, lw)
    requires SupportedBy(pt, tf)
    ensures SupportedBy(Step(num, LogAll(num, tf), pc, pt, lw), tf)
  {
    EStepKeepsSupport(num, tf, pc, pt, lw);
    MStepKeepsSupport(num, tf, EStep(num, LogAll(num, tf), pc, Shift(pt, lw)));
  }

  /** Every iterate keeps the support of the starting vector. */
  lemma {:induction false} IterateKeepsSupport(num: Numerics, tf: seq<real>, pc: seq<LogP>, pt: seq<LogP>, lw: LogP, n: int)
    requires SupportHypotheses(tf, pc, lw)
    requires SupportedBy(pt, tf) && |pt| > 0
    ensures SupportedBy(Iterate(num, LogAll(num, tf), pc, pt, lw, n), tf)
    decreases n
  {
    if n > 0 {
      IterateKeepsSupport(num, tf, pc, pt, lw, n - 1);
      StepKeepsSupport(num, tf, pc, Iterate(num, LogAll(num, tf), pc, pt, lw, n - 1), lw);
    }
  }

  // ---------------------------------------------------------------------
  // The loop

  /** `for i in xrange(n_iter): p_term += w; E = ...; p_term = E - reduce(E)`.
      The first `+=` updates the array it is given in place; every later one
      updates an array the loop itself allocated. With no iteration the
      array given is returned itself; an empty vocabulary makes the reduction
      raise `ValueError`. */
  method Iterations(num: Numerics, logTf: array<LogP>, pc: array<LogP>, pt: array<LogP>, lw: LogP, nIter: int)
    returns (r: Outcome<array<LogP>>)
    requires logTf.Length == pc.Length == pt.Length
    requires pt != logTf && pt != pc
    modifies pt
    ensures nIter <= 0 ==> r == Ok(pt) && pt[..] == old(pt[..])
    ensures nIter > 0 ==> pt[..] == Shift(old(pt[..]), lw)
    ensures nIter > 0 && pt.Length == 0 ==> r == Raise(ValueError)
    ensures nIter > 0 && pt.Length > 0 ==>
      r.Ok? && fresh(r.value) && r.value[..] == Iterate(num, logTf[..], pc[..], old(pt[..]), lw, nIter)
  {
    ghost var (tf0, pc0, pt0) := (logTf[..], pc[..], pt[..]);
    var pTerm := pt;
    for i := 0 to if nIter > 0 then nIter else 0
      invariant logTf[..] == tf0 && pc[..] == pc0
      invariant pTerm != logTf && pTerm != pc && pTerm.Length == pt.Length
      invariant i == 0 ==> pTerm == pt && pt[..] == pt0
      invariant i > 0 ==> pt.Length > 0 && pt[..] == Shift(pt0, lw)
      invariant i > 0 ==> fresh(pTerm) && pTerm[..] == Iterate(num, tf0, pc0, pt0, lw, i)
    {
      var next := Iteration(num, logTf, pc, pTerm, lw);
      if next.Raise? {
        return next;
      }
      pTerm := next.value;
    }
    return Ok(pTerm);
  }

  /** The body of the loop: `p_term += w` in place on the array it is
      given, then the E-step and the M-step into new arrays. */
  method Iteration(num: Numerics, logTf: array<LogP>, pc: array<LogP>, pTerm: array<LogP>, lw: LogP)
    returns (r: Outcome<array<LogP>>)
    requires logTf.Length == pc.Length == pTerm.Length
    requires pTerm != logTf && pTerm != pc
    modifies pTerm
    ensures pTerm[..] == Shift(old(pTerm[..]), lw)
    ensures pTerm.Length == 0 ==> r == Raise(ValueError)
    ensures pTerm.Length > 0 ==>
      r.Ok? && fresh(r.value) && r.value[..] == Step(num, logTf[..], pc[..], old(pTerm[..]), lw)
  {
    var n := pTerm.Length;
    ghost var before := pTerm[..];
    // E-step
    forall j | 0 <= j < n {
      pTerm[j] := Add(pTerm[j], lw);
    }
    var e := new LogP[n](j requires 0 <= j < n reads logTf, pc, pTerm =>
      Sub(Add(logTf[j], pTerm[j]), LogAddExp(num, pc[j], pTerm[j])));
    // M-step: reducing an empty array raises
    if n == 0 {
      return Raise(ValueError);
    }
    assert e[..] == EStep(num, logTf[..], pc[..], Shift(before, lw)) by {
      assert pTerm[..] == Shift(before, lw);
    }
    var total := Reduce(num, e[..]);
    var next := new LogP[n](j requires 0 <= j < n reads e => Sub(e[j], total));
    return Ok(next);
  }

  /** The body of `_EM` once its defaults are resolved: a shifted copy of the
      corpus model, `np.log(tf)` and a copy of `p_term`, then the loop. */
  method RunEM(num: Numerics, pCorpus: array<LogP>, tf: array<real>, pTerm: array<LogP>, w: real, n: int)
    returns (r: Outcome<array<LogP>>)
    requires tf.Length == pTerm.Length == pCorpus.Length
    ensures n > 0 && pTerm.Length == 0 ==> r == Raise(ValueError)
    ensures n <= 0 ==> r.Ok? && fresh(r.value) && r.value[..] == pTerm[..]
    ensures n > 0 && pTerm.Length > 0 ==>
      r.Ok? && fresh(r.value) &&
      r.value[..] == Iterate(num, LogAll(num, tf[..]), Shift(pCorpus[..], Log(num, 1.0 - w)), pTerm[..], Log(num, w), n)
  {
    var pc := ShiftArray(pCorpus, Log(num, 1.0 - w));
    var logTf := LogArray(num, tf);
    var copy := CopyArray(pTerm);
    r := Iterations(num, logTf, pc, copy, Log(num, w), n);
  }

  /** `a + c` into a new array. */
  method ShiftArray(a: array<LogP>, c: LogP) returns (b: array<LogP>)
    ensures fresh(b) && b[..] == Shift(a[..], c)
  {
    b := new LogP[a.Length](i requires 0 <= i < a.Length reads a => Add(a[i], c));
  }

  /** `np.log(tf)` into a new array. */
  method LogArray(num: Numerics, tf: array<real>) returns (b: array<LogP>)
    ensures fresh(b) && b[..] == LogAll(num, tf[..])
  {
    b := new LogP[tf.Length](i requires 0 <= i < tf.Length reads tf => Log(num, tf[i]));
  }

  /** `np.array(a)`: a copy. */
  method CopyArray(a: array<LogP>) returns (b: array<LogP>)
    ensures fresh(b) && b[..] == a[..]
  {
    b := new LogP[a.Length](i requires 0 <= i < a.Length reads a => a[i]);
  }

  /** EM started from the initial document model keeps its support, given a
      finite corpus model and finite log-weights for the corpus and the
      document models. */
  lemma EMSupport(num: Numerics, tf: seq<real>, pCorpus: seq<LogP>, lwCorpus: LogP, lwDoc: LogP, n: int)
    requires NonNegative(tf) && |pCorpus| == |tf| && forall i | 0 <= i < |pCorpus| :: pCorpus[i].Finite?
    requires lwCorpus.Finite? && lwDoc.Finite?
    ensures CountPositive(tf) > 0 ==>
      SupportedBy(Iterate(num, LogAll(num, tf), Shift(pCorpus, lwCorpus), InitialLogProb(num, tf), lwDoc, n), tf)
  {
    if CountPositive(tf) > 0 {
      var pc := Shift(pCorpus, lwCorpus);
      CountPositiveIsSize(tf);
      var j :| j in Positive(tf);
      InitialSupport(num, tf);
      assert SupportHypotheses(tf, pc, lwDoc);
      IterateKeepsSupport(num, tf, pc, InitialLogProb(num, tf), lwDoc, n);
    }
  }

  /** EM started from the incrementally built document model keeps its
      support when every token weight is positive and at least one token
      was read: every iterate is finite exactly on the indices read and
      `log 0` on the others. */
  lemma TouchedEMSupport(num: Numerics, idx: seq<nat>, ws: seq<real>, pCorpus: seq<LogP>, lwCorpus: LogP, lwDoc: LogP, n: int)
    requires |idx| == |ws| && idx != [] && forall k | 0 <= k < |ws| :: ws[k] > 0.0
    requires forall k | 0 <= k < |idx| :: idx[k] < |pCorpus|
    requires forall i | 0 <= i < |pCorpus| :: pCorpus[i].Finite?
    requires lwCorpus.Finite? && lwDoc.Finite?
    ensures idx[0] < |pCorpus|
    ensures
      var v := Iterate(num, LogAll(num, TermFreq(idx, ws, |pCorpus|)), Shift(pCorpus, lwCorpus),
                       TouchedLogProb(num, idx, ws, |pCorpus|), lwDoc, n);
      |v| == |pCorpus| &&
      forall i | 0 <= i < |pCorpus| :: (v[i].Finite? <==> i in idx) && (v[i] == NegInf <==> i !in idx)
  {
    var tf := TermFreq(idx, ws, |pCorpus|);
    TermFreqNonNegative(idx, ws, |pCorpus|, 0);
    TouchedMatchesInitial(num, idx, ws, |pCorpus|);
    EMSupport(num, tf, pCorpus, lwCorpus, lwDoc, n);
    IndexTotalPositive(idx, ws, idx[0]);
    CountPositiveIsSize(tf);
    assert idx[0] in Positive(tf);
    forall i | 0 <= i < |pCorpus| ensures tf[i] > 0.0 <==> i in idx {
      IndexTotalPositive(idx, ws, i);
    }
  }
}
