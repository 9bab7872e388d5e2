/**
  `weighwords.py` as written, at the level where it fails: which names and
  attributes each executed statement reads, in Python's evaluation order,
  and which local names it binds. A run follows Python's scoping rule: a
  name that a function assigns anywhere in its body is local to it, and
  reading it before an assignment has run raises `UnboundLocalError`; any
  other name is looked up among the module's globals and the builtins, and
  a miss raises `NameError`; a missing attribute of `self` raises
  `AttributeError`.

  Values are not modelled here (the intended computation is the class in
  module WeighWordsSnapshot); where a branch depends on a value, the run
  takes the branch the value selects. Each method is run with a flag per
  defect that switches its statement to the evidently intended spelling,
  so that the lemmas show both where the text stops and that the repaired
  text gets through. "Gets through" means only that every name and
  attribute the traced statements read resolves: exceptions that depend on
  values (`self.vocab[tok]` on an unknown token, or `top`'s key function
  `p_term[t]` indexing an array by a term) are outside this module, and a
  call is not followed into the method it calls.
 */
module SnapshotAsWritten {
  import opened Python
  import opened Vocabulary

  /** The identifiers the traced methods read or bind. */
  datatype Ident =
    | Logger | Logging | Np | Defaultdict | Nlargest | WeighWordsClass
    | Int | Len | Sum | Xrange | Object
    | Self | Documents | W | Cf | D | Tok | Vocab | I | CSize | F | PCorpus
    | K | NIter | Tf | PTerm | NDistinct | WLog | E
    | Init | Top | DocumentModel | PrivateDocumentModel | EMName | PrivateEM

  /** How the identifier is spelled in `weighwords.py`. */
  function Spelling(x: Ident): string
  {
    match x
    case Logger => "logger"
    case Logging => "logging"
    case Np => "np"
    case Defaultdict => "defaultdict"
    case Nlargest => "nlargest"
    case WeighWordsClass => "WeighWords"
    case Int => "int"
    case Len => "len"
    case Sum => "sum"
    case Xrange => "xrange"
    case Object => "object"
    case Self => "self"
    case Documents => "documents"
    case W => "w"
    case Cf => "cf"
    case D => "d"
    case Tok => "tok"
    case Vocab => "vocab"
    case I => "i"
    case CSize => "c_size"
    case F => "f"
    case PCorpus => "p_corpus"
    case K => "k"
    case NIter => "n_iter"
    case Tf => "tf"
    case PTerm => "p_term"
    case NDistinct => "n_distinct"
    case WLog => "w_"
    case E => "E"
    case Init => "__init__"
    case Top => "top"
    case DocumentModel => "document_model"
    case PrivateDocumentModel => "_document_model"
    case EMName => "EM"
    case PrivateEM => "_EM"
  }

  /** The module-level names of `weighwords.py` (its imports, `logger` and
      the class) and the builtins its methods use. */
  const Globals: set<Ident> :=
    {Logger, Logging, Np, Defaultdict, Nlargest, WeighWordsClass, Int, Len, Sum, Xrange, Object}

  /** The attributes of a `WeighWords` instance: the four methods the class
      defines and the two fields `__init__` assigns. */
  const Attributes: set<Ident> := {Init, Top, PrivateDocumentModel, PrivateEM, Vocab, PCorpus}

  /** A read, in evaluation order: a bare name, or an attribute of `self`. */
  datatype Load = Name(x: Ident) | Attr(a: Ident)

  /** One executed statement: its line, what it reads and what it binds. */
  datatype Stmt = Stmt(line: nat, loads: seq<Load>, binds: set<Ident>)

  /** The local names of a function (its parameters and every name its
      body assigns) and the attributes of its `self`. */
  datatype Scope = Scope(locals: set<Ident>, attrs: set<Ident>)

  /** How far a run gets: on, with the locals bound so far, or stopped at
      the line whose statement raised. */
  datatype Stop = Completed(bound: set<Ident>) | Stopped(line: nat, exc: Exception)

  /** Whether a read succeeds: a local name must be bound already, any
      other name must be global, and an attribute must exist. */
  predicate Resolves(s: Scope, bound: set<Ident>, l: Load)
  {
    match l
    case Name(x) => if x in s.locals then x in bound else x in Globals
    case Attr(a) => a in s.attrs
  }

  /** The exception a read that does not resolve raises. */
  function Failure(s: Scope, l: Load): Exception
  {
    match l
    case Name(x) => if x in s.locals then UnboundLocalError(Spelling(x)) else NameError(Spelling(x))
    case Attr(a) => AttributeError(Spelling(a))
  }

  /** The exception of the first read that fails; the reads after it are
      never made. */
  function FirstError(s: Scope, bound: set<Ident>, loads: seq<Load>): Option<Exception>
  {
    if loads == [] then None
    else if !Resolves(s, bound, loads[0]) then Some(Failure(s, loads[0]))
    else FirstError(s, bound, loads[1..])
  }

  /** Executes one statement: its reads, then its bindings. A run that has
      stopped stays stopped. */
  function Exec(s: Scope, st: Stmt, r: Stop): Stop
  {
    match r
    case Stopped(_, _) => r
    case Completed(bound) =>
      match FirstError(s, bound, st.loads)
      case Some(e) => Stopped(st.line, e)
      case None => Completed(bound + st.binds)
  }

  /** A statement whose reads all resolve binds its names. */
  lemma ExecResolves(s: Scope, st: Stmt, r: Stop)
    requires r.Completed? && forall k | 0 <= k < |st.loads| :: Resolves(s, r.bound, st.loads[k])
    ensures Exec(s, st, r) == Completed(r.bound + st.binds)
  {
    FirstErrorNone(s, r.bound, st.loads);
  }

  /** A statement stops on the first of its reads that fails. */
  lemma ExecFails(s: Scope, st: Stmt, r: Stop, k: nat)
    requires r.Completed? && k < |st.loads|
    requires forall j | 0 <= j < k :: Resolves(s, r.bound, st.loads[j])
    requires !Resolves(s, r.bound, st.loads[k])
    ensures Exec(s, st, r) == Stopped(st.line, Failure(s, st.loads[k]))
  {
    FirstErrorAt(s, r.bound, st.loads, k);
  }

  lemma {:induction false} FirstErrorNone(s: Scope, bound: set<Ident>, loads: seq<Load>)
    requires forall k | 0 <= k < |loads| :: Resolves(s, bound, loads[k])
    ensures FirstError(s, bound, loads).None?
  {
    if loads != [] {
      FirstErrorNone(s, bound, loads[1..]);
    }
  }

  lemma {:induction false} FirstErrorAt(s: Scope, bound: set<Ident>, loads: seq<Load>, k: nat)
    requires k < |loads|
    requires forall j | 0 <= j < k :: Resolves(s, bound, loads[j])
    requires !Resolves(s, bound, loads[k])
    ensures FirstError(s, bound, loads) == Some(Failure(s, loads[k]))
  {
    if k > 0 {
      FirstErrorAt(s, bound, loads[1..], k - 1);
    }
  }

  // ---------------------------------------------------------------------
  // `__init__(self, documents, w)`, lines 33-47

  /** The locals of `__init__`; with `vocabBound`, line 35 binds `vocab`
      too, as `self.vocab = vocab = {}` does in the packaged class. */
  function InitScope(vocabBound: bool): Scope
  {
    Scope({Self, Documents, W, Cf, D, Tok, I, CSize, F} + (if vocabBound then {Vocab} else {}), Attributes)
  }

  /** Lines 33-38: `logger.info(...)`, `self.vocab = {}`, `cf =
      defaultdict(int)`, and the start of the loop over `documents`. */
  function InitStart(vocabBound: bool): Stop
  {
    var s := InitScope(vocabBound);
    var r := Exec(s, Stmt(33, [Name(Logger)], {}), Completed({Self, Documents, W}));
    var r := Exec(s, Stmt(35, [Name(Self)], if vocabBound then {Vocab} else {}), r);
    var r := Exec(s, Stmt(36, [Name(Defaultdict), Name(Int)], {Cf}), r);
    Exec(s, Stmt(38, [Name(Documents)], {}), r)
  }

  /** Lines 43-46: `c_size = np.log(sum(cf.itervalues()))`,
      `self.p_corpus = np.zeros(len(vocab))`, and the start of the loop
      over `cf`. */
  function InitMiddle(vocabBound: bool, r: Stop): Stop
  {
    var s := InitScope(vocabBound);
    var r := Exec(s, Stmt(43, [Name(Np), Name(Sum), Name(Cf)], {CSize}), r);
    var r := Exec(s, Line45, r);
    Exec(s, Stmt(46, [Name(Cf)], {}), r)
  }

  const Line45 := Stmt(45, [Name(Np), Name(Len), Name(Vocab), Name(Self)], {})

  /** `__init__` run on `documents`. With `vocabBound` the name `vocab` is
      bound at line 35; with `pCorpusAttr` line 47 writes
      `self.p_corpus[i]` instead of `p_corpus[i]`. */
  function InitRun<T(==)>(documents: seq<seq<T>>, vocabBound: bool, pCorpusAttr: bool): Stop
  {
    var s := InitScope(vocabBound);
    var r := CountLoop(s, documents, InitStart(vocabBound));
    var r := InitMiddle(vocabBound, r);
    FillLoop(s, |FirstSeen(Flatten(documents))|, pCorpusAttr, r)
  }

  /** Lines 38-39 for one more document: bind `d`, start the inner loop. */
  function NextDocument(s: Scope, r: Stop): Stop
  {
    Exec(s, Stmt(39, [Name(D)], {}), Exec(s, Stmt(38, [], {D}), r))
  }

  /** Lines 38-41: for each document bind `d` and start the inner loop,
      then read its tokens. */
  function CountLoop<T>(s: Scope, documents: seq<seq<T>>, r: Stop): Stop
  {
    if documents == [] then r
    else TokenLoop(s, |documents[|documents| - 1]|, NextDocument(s, CountLoop(s, documents[..|documents| - 1], r)))
  }

  /** `i = vocab.setdefault(tok, len(vocab))`. */
  const Line40 := Stmt(40, [Name(Vocab), Name(Tok), Name(Len), Name(Vocab)], {I})
  /** `cf[i] += 1`. */
  const Line41 := Stmt(41, [Name(Cf), Name(I)], {})

  /** Lines 39-41 for `m` tokens: bind `tok`, then lines 40 and 41. */
  function TokenLoop(s: Scope, m: nat, r: Stop): Stop
  {
    if m == 0 then r
    else Exec(s, Line41, Exec(s, Line40, Exec(s, Stmt(39, [], {Tok}), TokenLoop(s, m - 1, r))))
  }

  /** `p_corpus[i] = np.log(f) - c_size`, the right-hand side read first;
      with `pCorpusAttr`, `self.p_corpus[i] = ...`. */
  function Line47(pCorpusAttr: bool): Stmt
  {
    Stmt(47, [Name(Np), Name(F), Name(CSize)] + (if pCorpusAttr then [Name(Self), Attr(PCorpus)] else [Name(PCorpus)]) + [Name(I)], {})
  }

  /** Lines 46-47 for `m` entries of `cf`: bind `i, f`, then line 47. */
  function FillLoop(s: Scope, m: nat, pCorpusAttr: bool, r: Stop): Stop
  {
    if m == 0 then r
    else Exec(s, Line47(pCorpusAttr), Exec(s, Stmt(46, [], {I, F}), FillLoop(s, m - 1, pCorpusAttr, r)))
  }

  lemma {:induction false} CountLoopStopped<T>(s: Scope, documents: seq<seq<T>>, r: Stop)
    requires r.Stopped?
    ensures CountLoop(s, documents, r) == r
  {
    if documents != [] {
      CountLoopStopped(s, documents[..|documents| - 1], r);
      TokenLoopStopped(s, |documents[|documents| - 1]|, r);
    }
  }

  lemma {:induction false} TokenLoopStopped(s: Scope, m: nat, r: Stop)
    requires r.Stopped?
    ensures TokenLoop(s, m, r) == r
  {
    if m > 0 {
      TokenLoopStopped(s, m - 1, r);
    }
  }

  lemma {:induction false} FillLoopStopped(s: Scope, m: nat, pCorpusAttr: bool, r: Stop)
    requires r.Stopped?
    ensures FillLoop(s, m, pCorpusAttr, r) == r
  {
    if m > 0 {
      FillLoopStopped(s, m - 1, pCorpusAttr, r);
    }
  }

  /** Lines 33-38 bind `cf`, and `vocab` when line 35 does. */
  lemma InitStartRuns(vocabBound: bool)
    ensures InitStart(vocabBound) == Completed({Self, Documents, W, Cf} + (if vocabBound then {Vocab} else {}))
  {
    var s := InitScope(vocabBound);
    var r0 := Completed({Self, Documents, W});
    ExecResolves(s, Stmt(33, [Name(Logger)], {}), r0);
    var r1 := Exec(s, Stmt(33, [Name(Logger)], {}), r0);
    ExecResolves(s, Stmt(35, [Name(Self)], if vocabBound then {Vocab} else {}), r1);
    var r2 := Exec(s, Stmt(35, [Name(Self)], if vocabBound then {Vocab} else {}), r1);
    ExecResolves(s, Stmt(36, [Name(Defaultdict), Name(Int)], {Cf}), r2);
    var r3 := Exec(s, Stmt(36, [Name(Defaultdict), Name(Int)], {Cf}), r2);
    ExecResolves(s, Stmt(38, [Name(Documents)], {}), r3);
  }

  /** Reading tokens with `vocab` unbound stops at the first one, on line
      40; with `vocab` bound it gets through. */
  lemma {:induction false} TokenLoopRuns(vocabBound: bool, m: nat, r: Stop)
    requires r.Completed? && Cf in r.bound && (vocabBound <==> Vocab in r.bound)
    ensures var t := TokenLoop(InitScope(vocabBound), m, r);
      && (vocabBound || m == 0 ==> t.Completed? && r.bound <= t.bound && (Vocab in t.bound <==> vocabBound))
      && (!vocabBound && m > 0 ==> t == Stopped(40, NameError("vocab")))
  {
    if m > 0 {
      TokenLoopRuns(vocabBound, m - 1, r);
      var c := TokenLoop(InitScope(vocabBound), m - 1, r);
      if c.Completed? {
        TokenStep(vocabBound, c);
      } else {
        TokenStepStopped(vocabBound, c);
      }
    }
  }

  /** One token, lines 39-41, after a run that got through. */
  lemma TokenStep(vocabBound: bool, c: Stop)
    requires c.Completed? && Cf in c.bound && (vocabBound <==> Vocab in c.bound)
    ensures var t := Exec(InitScope(vocabBound), Line41, Exec(InitScope(vocabBound), Line40,
                       Exec(InitScope(vocabBound), Stmt(39, [], {Tok}), c)));
      && (vocabBound ==> t.Completed? && c.bound <= t.bound && Vocab in t.bound)
      && (!vocabBound ==> t == Stopped(40, NameError("vocab")))
  {
    var s := InitScope(vocabBound);
    ExecResolves(s, Stmt(39, [], {Tok}), c);
    var c1 := Exec(s, Stmt(39, [], {Tok}), c);
    if vocabBound {
      ExecResolves(s, Line40, c1);
      ExecResolves(s, Line41, Exec(s, Line40, c1));
    } else {
      ExecFails(s, Line40, c1, 0);
    }
  }

  lemma TokenStepStopped(vocabBound: bool, c: Stop)
    requires c.Stopped?
    ensures Exec(InitScope(vocabBound), Line41, Exec(InitScope(vocabBound), Line40,
              Exec(InitScope(vocabBound), Stmt(39, [], {Tok}), c))) == c
  {
  }

  /** Counting with `vocab` unbound stops at the first token, on line 40;
      with `vocab` bound it gets through. */
  lemma {:induction false} CountLoopRuns<T>(vocabBound: bool, documents: seq<seq<T>>, r: Stop)
    requires r.Completed? && Cf in r.bound && (vocabBound <==> Vocab in r.bound)
    ensures var c := CountLoop(InitScope(vocabBound), documents, r);
      && (vocabBound || Flatten(documents) == [] ==> c.Completed? && r.bound <= c.bound && (Vocab in c.bound <==> vocabBound))
      && (!vocabBound && Flatten(documents) != [] ==> c == Stopped(40, NameError("vocab")))
  {
    var s := InitScope(vocabBound);
    if documents != [] {
      var n := |documents| - 1;
      CountLoopRuns(vocabBound, documents[..n], r);
      assert documents == documents[..n] + [documents[n]];
      FlattenSnoc(documents[..n], documents[n]);
      var c := CountLoop(s, documents[..n], r);
      if c.Completed? {
        ExecResolves(s, Stmt(38, [], {D}), c);
        ExecResolves(s, Stmt(39, [Name(D)], {}), Exec(s, Stmt(38, [], {D}), c));
        TokenLoopRuns(vocabBound, |documents[n]|, NextDocument(s, c));
      } else {
        TokenLoopStopped(s, |documents[n]|, NextDocument(s, c));
      }
    }
  }

  /** Writing `p_corpus[i]` stops at the first entry, on line 47, since
      `p_corpus` is neither a local nor a global name; writing
      `self.p_corpus[i]` gets through. */
  lemma {:induction false} FillLoopRuns(m: nat, pCorpusAttr: bool, r: Stop)
    requires r.Completed? && CSize in r.bound && Self in r.bound
    ensures var f := FillLoop(InitScope(true), m, pCorpusAttr, r);
      && (pCorpusAttr || m == 0 ==> f.Completed? && r.bound <= f.bound)
      && (!pCorpusAttr && m > 0 ==> f == Stopped(47, NameError("p_corpus")))
  {
    if m > 0 {
      FillLoopRuns(m - 1, pCorpusAttr, r);
      var c := FillLoop(InitScope(true), m - 1, pCorpusAttr, r);
      if c.Completed? {
        FillStep(pCorpusAttr, c);
      } else {
        FillStepStopped(pCorpusAttr, c);
      }
    }
  }

  /** One entry of `cf`, lines 46-47, after a run that got through. */
  lemma FillStep(pCorpusAttr: bool, c: Stop)
    requires c.Completed? && CSize in c.bound && Self in c.bound
    ensures var f := Exec(InitScope(true), Line47(pCorpusAttr), Exec(InitScope(true), Stmt(46, [], {I, F}), c));
      && (pCorpusAttr ==> f.Completed? && c.bound <= f.bound)
      && (!pCorpusAttr ==> f == Stopped(47, NameError("p_corpus")))
  {
    var s := InitScope(true);
    ExecResolves(s, Stmt(46, [], {I, F}), c);
    var c1 := Exec(s, Stmt(46, [], {I, F}), c);
    if pCorpusAttr {
      ExecResolves(s, Line47(true), c1);
    } else {
      ExecFails(s, Line47(false), c1, 3);
    }
  }

  lemma FillStepStopped(pCorpusAttr: bool, c: Stop)
    requires c.Stopped?
    ensures Exec(InitScope(true), Line47(pCorpusAttr), Exec(InitScope(true), Stmt(46, [], {I, F}), c)) == c
  {
  }

  /** Lines 43-46 get through when `vocab` is bound, and stop at line 45
      when it is not. */
  lemma InitMiddleRuns(vocabBound: bool, r: Stop)
    requires r.Completed? && Self in r.bound && Cf in r.bound && (vocabBound ==> Vocab in r.bound)
    ensures vocabBound ==> InitMiddle(vocabBound, r).Completed? && r.bound + {CSize} <= InitMiddle(vocabBound, r).bound
    ensures !vocabBound ==> InitMiddle(vocabBound, r) == Stopped(45, NameError("vocab"))
  {
    var s := InitScope(vocabBound);
    ExecResolves(s, Stmt(43, [Name(Np), Name(Sum), Name(Cf)], {CSize}), r);
    var r1 := Exec(s, Stmt(43, [Name(Np), Name(Sum), Name(Cf)], {CSize}), r);
    if vocabBound {
      ExecResolves(s, Line45, r1);
      ExecResolves(s, Stmt(46, [Name(Cf)], {}), Exec(s, Line45, r1));
    } else {
      ExecFails(s, Line45, r1, 2);
    }
  }

  /** As written, `__init__` never gets through: `vocab` is never bound, so
      the first token stops it at line 40, and a corpus without tokens stops
      it at line 45. */
  lemma InitStopsOnVocab<T>(documents: seq<seq<T>>, pCorpusAttr: bool)
    ensures InitRun(documents, false, pCorpusAttr) ==
      Stopped(if Flatten(documents) == [] then 45 else 40, NameError("vocab"))
  {
    var s := InitScope(false);
    InitStartRuns(false);
    CountLoopRuns(false, documents, InitStart(false));
    var c := CountLoop(s, documents, InitStart(false));
    if Flatten(documents) == [] {
      InitMiddleRuns(false, c);
    }
    FillLoopStopped(s, |FirstSeen(Flatten(documents))|, pCorpusAttr, InitMiddle(false, c));
  }

  /** With `vocab` bound, `__init__` as written still stops at the first
      entry of `cf`, on line 47, because it writes `p_corpus` and not
      `self.p_corpus`; only a corpus without tokens gets through. */
  lemma InitStopsOnPCorpus<T>(documents: seq<seq<T>>)
    ensures var r := InitRun(documents, true, false);
      && (Flatten(documents) != [] ==> r == Stopped(47, NameError("p_corpus")))
      && (Flatten(documents) == [] ==> r.Completed?)
  {
    var corpus := Flatten(documents);
    InitPrefixRuns(documents);
    FirstSeenIsDense(corpus);
    if corpus != [] {
      assert corpus[0] in FirstSeen(corpus);
    }
    var m := InitMiddle(true, CountLoop(InitScope(true), documents, InitStart(true)));
    FillLoopRuns(|FirstSeen(corpus)|, false, m);
  }

  /** With both repairs, `__init__` gets through on every corpus. */
  lemma InitRepairedRuns<T>(documents: seq<seq<T>>)
    ensures InitRun(documents, true, true).Completed?
  {
    InitPrefixRuns(documents);
    var m := InitMiddle(true, CountLoop(InitScope(true), documents, InitStart(true)));
    FillLoopRuns(|FirstSeen(Flatten(documents))|, true, m);
  }

  /** With `vocab` bound, lines 33-46 get through and leave `self` and
      `c_size` bound. */
  lemma InitPrefixRuns<T>(documents: seq<seq<T>>)
    ensures var m := InitMiddle(true, CountLoop(InitScope(true), documents, InitStart(true)));
      m.Completed? && Self in m.bound && CSize in m.bound
  {
    InitStartRuns(true);
    CountLoopRuns(true, documents, InitStart(true));
    InitMiddleRuns(true, CountLoop(InitScope(true), documents, InitStart(true)));
  }

  // ---------------------------------------------------------------------
  // `top(self, k, d, n_iter=None)`, lines 59-62

  /** The locals of `top`. */
  const TopScope := Scope({Self, K, D, NIter, Tf, PTerm}, Attributes)

  /** `tf, p_term = self.document_model(d)`, or `self._document_model(d)`. */
  function Line59(docModelPrivate: bool): Stmt
  {
    Stmt(59, [Name(Self), Attr(if docModelPrivate then PrivateDocumentModel else DocumentModel), Name(D)], {Tf, PTerm})
  }

  /** `p_term = self.EM(tf, p_term, n_iter)`, or `self._EM(...)`. */
  function Line60(emPrivate: bool): Stmt
  {
    Stmt(60, [Name(Self), Attr(if emPrivate then PrivateEM else EMName), Name(Tf), Name(PTerm), Name(NIter)], {PTerm})
  }

  /** `return nlargest(k, self.vocab.iterkeys(), lambda t: p_term[t])`;
      the lambda reads `p_term` only when `nlargest` calls it. */
  const Line62 := Stmt(62, [Name(Nlargest), Name(K), Name(Self), Attr(Vocab)], {})

  /** `top` run with the method names it calls: as written they are
      `document_model` and `EM`, which the class does not define. */
  function TopRun(docModelPrivate: bool, emPrivate: bool): Stop
  {
    var r := Exec(TopScope, Line59(docModelPrivate), Completed({Self, K, D, NIter}));
    var r := Exec(TopScope, Line60(emPrivate), r);
    Exec(TopScope, Line62, r)
  }

  /** As written, `top` stops at line 59 on `self.document_model`; with that
      name repaired it stops at line 60 on `self.EM`; with both repaired it
      gets through its own statements (the methods it calls, and the key
      function `nlargest` calls, are not followed). */
  lemma TopStops(docModelPrivate: bool, emPrivate: bool)
    ensures !docModelPrivate ==> TopRun(docModelPrivate, emPrivate) == Stopped(59, AttributeError("document_model"))
    ensures docModelPrivate && !emPrivate ==> TopRun(docModelPrivate, emPrivate) == Stopped(60, AttributeError("EM"))
    ensures docModelPrivate && emPrivate ==> TopRun(docModelPrivate, emPrivate).Completed?
  {
    var r0 := Completed({Self, K, D, NIter});
    if !docModelPrivate {
      ExecFails(TopScope, Line59(false), r0, 1);
    } else {
      ExecResolves(TopScope, Line59(true), r0);
      TopTail(emPrivate);
    }
  }

  /** `top` after line 59 has bound `tf` and `p_term`. */
  lemma TopTail(emPrivate: bool)
    ensures var r1 := Completed({Self, K, D, NIter} + {Tf, PTerm});
      && (!emPrivate ==> Exec(TopScope, Line62, Exec(TopScope, Line60(false), r1)) == Stopped(60, AttributeError("EM")))
      && (emPrivate ==> Exec(TopScope, Line62, Exec(TopScope, Line60(true), r1)).Completed?)
  {
    var r1 := Completed({Self, K, D, NIter} + {Tf, PTerm});
    if !emPrivate {
      ExecFails(TopScope, Line60(false), r1, 1);
    } else {
      ExecResolves(TopScope, Line60(true), r1);
      ExecResolves(TopScope, Line62, Exec(TopScope, Line60(true), r1));
    }
  }

  // ---------------------------------------------------------------------
  // `_document_model(self, d)`, lines 84-100

  /** The locals of `_document_model`. */
  const DocScope := Scope({Self, D, Tf, PTerm, NDistinct, Tok, I}, Attributes)

  /** `tf = np.zeros(len(vocab))`, or `np.zeros(len(self.vocab))`. */
  function Line86(vocabAttr: bool): Stmt
  {
    Stmt(86, [Name(Np), Name(Len)] + (if vocabAttr then [Name(Self), Attr(Vocab)] else [Name(Vocab)]), {Tf})
  }

  /** Lines 84-91: `logger.info(...)`, the two arrays, `n_distinct = 0` and
      the start of the loop over `d`. */
  function DocStart(vocabAttr: bool): Stop
  {
    var r := Exec(DocScope, Stmt(84, [Name(Logger)], {}), Completed({Self, D}));
    var r := Exec(DocScope, Line86(vocabAttr), r);
    var r := Exec(DocScope, Stmt(87, [Name(Np), Name(Tf)], {PTerm}), r);
    var r := Exec(DocScope, Stmt(88, [Name(PTerm), Name(Np)], {}), r);
    var r := Exec(DocScope, Stmt(90, [], {NDistinct}), r);
    Exec(DocScope, Stmt(91, [Name(D)], {}), r)
  }

  /** Lines 91-96 for one token: bind `tok`, look it up, and take the
      branch of lines 94-95 when `first`, that is when `tf[i]` is still 0. */
  function DocToken(first: bool, r: Stop): Stop
  {
    var r := Exec(DocScope, Stmt(91, [], {Tok}), r);
    var r := Exec(DocScope, Stmt(92, [Name(Self), Attr(Vocab), Name(Tok)], {I}), r);
    var r := Exec(DocScope, Stmt(93, [Name(Tf), Name(I)], {}), r);
    var r := if first then Exec(DocScope, Stmt(95, [Name(NDistinct)], {NDistinct}),
                                Exec(DocScope, Stmt(94, [Name(PTerm), Name(I)], {}), r))
             else r;
    Exec(DocScope, Stmt(96, [Name(Tf), Name(I)], {}), r)
  }

  /** The token loop over `d`; `tf[i] == 0` holds exactly on the first
      occurrence of a token. */
  function DocTokenLoop<T(==)>(d: seq<T>, r: Stop): Stop
  {
    if d == [] then r
    else DocToken(d[|d| - 1] !in d[..|d| - 1], DocTokenLoop(d[..|d| - 1], r))
  }

  /** Lines 98-100: `p_term -= np.log(n_distinct)` and `return tf, p_term`. */
  function DocEnd(r: Stop): Stop
  {
    var r := Exec(DocScope, Stmt(98, [Name(PTerm), Name(Np), Name(NDistinct)], {PTerm}), r);
    Exec(DocScope, Stmt(100, [Name(Tf), Name(PTerm)], {}), r)
  }

  /** `_document_model(d)`; with `vocabAttr`, line 86 reads `self.vocab`. */
  function DocRun<T(==)>(d: seq<T>, vocabAttr: bool): Stop
  {
    DocEnd(DocTokenLoop(d, DocStart(vocabAttr)))
  }

  /** The names the token loop and lines 98-100 read are bound. */
  predicate DocReady(r: Stop)
  {
    r.Completed? && Self in r.bound && Tf in r.bound && PTerm in r.bound && NDistinct in r.bound
  }

  lemma DocStartRuns()
    ensures DocReady(DocStart(true))
  {
    var r0 := Completed({Self, D});
    ExecResolves(DocScope, Stmt(84, [Name(Logger)], {}), r0);
    var r1 := Exec(DocScope, Stmt(84, [Name(Logger)], {}), r0);
    ExecResolves(DocScope, Line86(true), r1);
    var r2 := Exec(DocScope, Line86(true), r1);
    ExecResolves(DocScope, Stmt(87, [Name(Np), Name(Tf)], {PTerm}), r2);
    var r3 := Exec(DocScope, Stmt(87, [Name(Np), Name(Tf)], {PTerm}), r2);
    ExecResolves(DocScope, Stmt(88, [Name(PTerm), Name(Np)], {}), r3);
    var r4 := Exec(DocScope, Stmt(88, [Name(PTerm), Name(Np)], {}), r3);
    ExecResolves(DocScope, Stmt(90, [], {NDistinct}), r4);
    ExecResolves(DocScope, Stmt(91, [Name(D)], {}), Exec(DocScope, Stmt(90, [], {NDistinct}), r4));
  }

  lemma DocStartStops()
    ensures DocStart(false) == Stopped(86, NameError("vocab"))
  {
    var r0 := Completed({Self, D});
    ExecResolves(DocScope, Stmt(84, [Name(Logger)], {}), r0);
    ExecFails(DocScope, Line86(false), Exec(DocScope, Stmt(84, [Name(Logger)], {}), r0), 2);
  }

  lemma DocTokenRuns(first: bool, r: Stop)
    requires DocReady(r)
    ensures DocReady(DocToken(first, r))
  {
    ExecResolves(DocScope, Stmt(91, [], {Tok}), r);
    var r1 := Exec(DocScope, Stmt(91, [], {Tok}), r);
    ExecResolves(DocScope, Stmt(92, [Name(Self), Attr(Vocab), Name(Tok)], {I}), r1);
    var r2 := Exec(DocScope, Stmt(92, [Name(Self), Attr(Vocab), Name(Tok)], {I}), r1);
    ExecResolves(DocScope, Stmt(93, [Name(Tf), Name(I)], {}), r2);
    var r3 := Exec(DocScope, Stmt(93, [Name(Tf), Name(I)], {}), r2);
    if first {
      ExecResolves(DocScope, Stmt(94, [Name(PTerm), Name(I)], {}), r3);
      var r4 := Exec(DocScope, Stmt(94, [Name(PTerm), Name(I)], {}), r3);
      ExecResolves(DocScope, Stmt(95, [Name(NDistinct)], {NDistinct}), r4);
      ExecResolves(DocScope, Stmt(96, [Name(Tf), Name(I)], {}),
                   Exec(DocScope, Stmt(95, [Name(NDistinct)], {NDistinct}), r4));
    } else {
      ExecResolves(DocScope, Stmt(96, [Name(Tf), Name(I)], {}), r3);
    }
  }

  lemma {:induction false} DocTokenLoopRuns<T>(d: seq<T>, r: Stop)
    requires DocReady(r)
    ensures DocReady(DocTokenLoop(d, r))
  {
    if d != [] {
      DocTokenLoopRuns(d[..|d| - 1], r);
      DocTokenRuns(d[|d| - 1] !in d[..|d| - 1], DocTokenLoop(d[..|d| - 1], r));
    }
  }

  lemma {:induction false} DocTokenLoopStopped<T>(d: seq<T>, r: Stop)
    requires r.Stopped?
    ensures DocTokenLoop(d, r) == r
  {
    if d != [] {
      DocTokenLoopStopped(d[..|d| - 1], r);
    }
  }

  /** As written, `_document_model` stops at line 86 on every document,
      because `vocab` is neither a local nor a global name; reading
      `self.vocab` there, it gets through. */
  lemma DocModelStops<T>(d: seq<T>)
    ensures DocRun(d, false) == Stopped(86, NameError("vocab"))
    ensures DocRun(d, true).Completed?
  {
    DocStartStops();
    DocTokenLoopStopped(d, DocStart(false));
    DocStartRuns();
    DocTokenLoopRuns(d, DocStart(true));
    DocEndRuns(DocTokenLoop(d, DocStart(true)));
  }

  lemma DocEndRuns(r: Stop)
    requires DocReady(r)
    ensures DocEnd(r).Completed?
  {
    ExecResolves(DocScope, Stmt(98, [Name(PTerm), Name(Np), Name(NDistinct)], {PTerm}), r);
    ExecResolves(DocScope, Stmt(100, [Name(Tf), Name(PTerm)], {}),
                 Exec(DocScope, Stmt(98, [Name(PTerm), Name(Np), Name(NDistinct)], {PTerm}), r));
  }

  // ---------------------------------------------------------------------
  // `_EM(self, tf, p_term, n_iter=None)`, lines 121-143

  /** The locals of `_EM`; `w` is one of them, since line 127 assigns it.
      With `wAttr` the instance also holds `self.w`. */
  function EMScope(wAttr: bool): Scope
  {
    Scope({Self, Tf, PTerm, NIter, WLog, W, PCorpus, E, I}, Attributes + (if wAttr then {W} else {}))
  }

  /** Lines 126-127 read `w`, or `self.w` with `wAttr`. */
  function WeightLoads(wAttr: bool): seq<Load>
  {
    [Name(Np)] + if wAttr then [Name(Self), Attr(W)] else [Name(W)]
  }

  /** Lines 121-127: `logger.info('EM')`, the test of `n_iter` (line 124
      only rebinds `n_iter`), `w_ = np.log(1 - w)` and `w = np.log(w)`. */
  function EMHead(wAttr: bool): Stop
  {
    var s := EMScope(wAttr);
    var r := Exec(s, Stmt(121, [Name(Logger)], {}), Completed({Self, Tf, PTerm, NIter}));
    var r := Exec(s, Stmt(123, [Name(NIter)], {}), r);
    var r := Exec(s, Stmt(126, WeightLoads(wAttr), {WLog}), r);
    Exec(s, Stmt(127, WeightLoads(wAttr), {W}), r)
  }

  /** Lines 129-135: the shifted corpus model, `log(tf)`, `E`, the copy of
      `p_term` and the start of the loop. */
  function EMPrepare(wAttr: bool, r: Stop): Stop
  {
    var s := EMScope(wAttr);
    var r := Exec(s, Stmt(129, [Name(Self), Attr(PCorpus), Name(WLog)], {PCorpus}), r);
    var r := Exec(s, Stmt(130, [Name(Np), Name(Tf)], {Tf}), r);
    var r := Exec(s, Stmt(132, [Name(Np), Name(Tf)], {E}), r);
    var r := Exec(s, Stmt(134, [Name(Np), Name(PTerm)], {PTerm}), r);
    Exec(s, Stmt(135, [Name(Xrange), Name(NIter)], {}), r)
  }

  /** Lines 135-141 for one iteration: bind `i`, then the E- and M-steps. */
  function EMIteration(wAttr: bool, r: Stop): Stop
  {
    var s := EMScope(wAttr);
    var r := Exec(s, Stmt(135, [], {I}), r);
    var r := Exec(s, Stmt(137, [Name(PTerm), Name(W)], {PTerm}), r);
    var r := Exec(s, Stmt(138, [Name(Tf), Name(PTerm), Name(Np), Name(PCorpus), Name(PTerm)], {E}), r);
    Exec(s, Stmt(141, [Name(E), Name(Np), Name(E)], {PTerm}), r)
  }

  /** `iterations` rounds of the loop. */
  function EMLoopRun(wAttr: bool, iterations: nat, r: Stop): Stop
  {
    if iterations == 0 then r else EMIteration(wAttr, EMLoopRun(wAttr, iterations - 1, r))
  }

  /** `_EM` with `iterations` rounds (the larger of `n_iter` and 0); with
      `wAttr`, lines 126-127 read `self.w`. */
  function EMRun(wAttr: bool, iterations: nat): Stop
  {
    var r := EMLoopRun(wAttr, iterations, EMPrepare(wAttr, EMHead(wAttr)));
    Exec(EMScope(wAttr), Stmt(143, [Name(PTerm)], {}), r)
  }

  /** The names the loop and line 143 read are bound. */
  predicate EMReady(r: Stop)
  {
    r.Completed? && Tf in r.bound && PTerm in r.bound && W in r.bound && PCorpus in r.bound
  }

  lemma EMHeadStops()
    ensures EMHead(false) == Stopped(126, UnboundLocalError("w"))
  {
    var s := EMScope(false);
    var r0 := Completed({Self, Tf, PTerm, NIter});
    ExecResolves(s, Stmt(121, [Name(Logger)], {}), r0);
    var r1 := Exec(s, Stmt(121, [Name(Logger)], {}), r0);
    ExecResolves(s, Stmt(123, [Name(NIter)], {}), r1);
    ExecFails(s, Stmt(126, WeightLoads(false), {WLog}), Exec(s, Stmt(123, [Name(NIter)], {}), r1), 1);
  }

  lemma EMHeadRuns()
    ensures var r := EMHead(true);
      r.Completed? && Self in r.bound && Tf in r.bound && PTerm in r.bound && NIter in r.bound
      && WLog in r.bound && W in r.bound
  {
    var s := EMScope(true);
    var r0 := Completed({Self, Tf, PTerm, NIter});
    ExecResolves(s, Stmt(121, [Name(Logger)], {}), r0);
    var r1 := Exec(s, Stmt(121, [Name(Logger)], {}), r0);
    ExecResolves(s, Stmt(123, [Name(NIter)], {}), r1);
    var r2 := Exec(s, Stmt(123, [Name(NIter)], {}), r1);
    ExecResolves(s, Stmt(126, WeightLoads(true), {WLog}), r2);
    ExecResolves(s, Stmt(127, WeightLoads(true), {W}), Exec(s, Stmt(126, WeightLoads(true), {WLog}), r2));
  }

  lemma EMPrepareRuns(r: Stop)
    requires r.Completed? && Self in r.bound && Tf in r.bound && PTerm in r.bound && NIter in r.bound
    requires WLog in r.bound && W in r.bound
    ensures EMReady(EMPrepare(true, r))
  {
    var s := EMScope(true);
    ExecResolves(s, Stmt(129, [Name(Self), Attr(PCorpus), Name(WLog)], {PCorpus}), r);
    var r1 := Exec(s, Stmt(129, [Name(Self), Attr(PCorpus), Name(WLog)], {PCorpus}), r);
    ExecResolves(s, Stmt(130, [Name(Np), Name(Tf)], {Tf}), r1);
    var r2 := Exec(s, Stmt(130, [Name(Np), Name(Tf)], {Tf}), r1);
    ExecResolves(s, Stmt(132, [Name(Np), Name(Tf)], {E}), r2);
    var r3 := Exec(s, Stmt(132, [Name(Np), Name(Tf)], {E}), r2);
    ExecResolves(s, Stmt(134, [Name(Np), Name(PTerm)], {PTerm}), r3);
    ExecResolves(s, Stmt(135, [Name(Xrange), Name(NIter)], {}), Exec(s, Stmt(134, [Name(Np), Name(PTerm)], {PTerm}), r3));
  }

  lemma EMIterationRuns(r: Stop)
    requires EMReady(r)
    ensures EMReady(EMIteration(true, r))
  {
    var s := EMScope(true);
    ExecResolves(s, Stmt(135, [], {I}), r);
    var r1 := Exec(s, Stmt(135, [], {I}), r);
    ExecResolves(s, Stmt(137, [Name(PTerm), Name(W)], {PTerm}), r1);
    var r2 := Exec(s, Stmt(137, [Name(PTerm), Name(W)], {PTerm}), r1);
    ExecResolves(s, Stmt(138, [Name(Tf), Name(PTerm), Name(Np), Name(PCorpus), Name(PTerm)], {E}), r2);
    ExecResolves(s, Stmt(141, [Name(E), Name(Np), Name(E)], {PTerm}),
                 Exec(s, Stmt(138, [Name(Tf), Name(PTerm), Name(Np), Name(PCorpus), Name(PTerm)], {E}), r2));
  }

  lemma {:induction false} EMLoopRuns(iterations: nat, r: Stop)
    requires EMReady(r)
    ensures EMReady(EMLoopRun(true, iterations, r))
  {
    if iterations > 0 {
      EMLoopRuns(iterations - 1, r);
      EMIterationRuns(EMLoopRun(true, iterations - 1, r));
    }
  }

  lemma {:induction false} EMLoopStopped(iterations: nat, r: Stop)
    requires r.Stopped?
    ensures EMLoopRun(false, iterations, r) == r
  {
    if iterations > 0 {
      EMLoopStopped(iterations - 1, r);
    }
  }

  /** As written, `_EM` stops at line 126 for any number of iterations:
      line 127 assigns `w`, which makes `w` local to `_EM`, and line 126
      reads it before that assignment. Reading the weight from `self.w`, it
      gets through. */
  lemma EMStops(iterations: nat)
    ensures EMRun(false, iterations) == Stopped(126, UnboundLocalError("w"))
    ensures EMRun(true, iterations).Completed?
  {
    EMHeadStops();
    EMLoopStopped(iterations, EMPrepare(false, EMHead(false)));
    EMHeadRuns();
    EMPrepareRuns(EMHead(true));
    EMLoopRuns(iterations, EMPrepare(true, EMHead(true)));
    ExecResolves(EMScope(true), Stmt(143, [Name(PTerm)], {}), EMLoopRun(true, iterations, EMPrepare(true, EMHead(true))));
  }
}
