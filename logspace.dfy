/**
  Log-space values as numpy holds them in a float64 array, and the few
  operations the parsimonious model applies to them.

  Only the *kind* of a value (minus infinity, finite, plus infinity, NaN) is
  modelled exactly; the finite results of `log` and `logaddexp` are left
  uninterpreted and supplied by a `Numerics` value, so that every property
  proved here holds whatever those floating-point primitives compute.
 */
module LogSpace {

  /** An extended real: the values a log-probability array can hold. */
  datatype LogP = NegInf | Finite(r: real) | PosInf | NaN

  /** The floating-point primitives the source takes from numpy, in the base
      the caller uses (`np.log` / `np.logaddexp`, or `np.log2` /
      `np.logaddexp2`): `log` on positive reals and the finite case of
      `logaddexp`. */
  datatype Numerics = Numerics(log: real -> real, logAddExp: (real, real) -> real)

  function Neg(a: LogP): LogP
  {
    match a
    case NegInf => PosInf
    case PosInf => NegInf
    case Finite(x) => Finite(-x)
    case NaN => NaN
  }

  /** IEEE addition: NaN is absorbing, and so is `inf + -inf`. */
  function Add(a: LogP, b: LogP): LogP
  {
    if a.NaN? || b.NaN? then NaN
    else if (a.PosInf? && b.NegInf?) || (a.NegInf? && b.PosInf?) then NaN
    else if a.PosInf? || b.PosInf? then PosInf
    else if a.NegInf? || b.NegInf? then NegInf
    else Finite(a.r + b.r)
  }

  function Sub(a: LogP, b: LogP): LogP
  {
    Add(a, Neg(b))
  }

  /** `np.log(x)` of a real: minus infinity at zero, NaN below zero. */
  function Log(num: Numerics, x: real): LogP
  {
    if x > 0.0 then Finite(num.log(x))
    else if x == 0.0 then NegInf
    else NaN
  }

  /** `np.logaddexp(a, b)`: minus infinity is its identity element. */
  function LogAddExp(num: Numerics, a: LogP, b: LogP): LogP
  {
    if a.NaN? || b.NaN? then NaN
    else if a.PosInf? || b.PosInf? then PosInf
    else if a.NegInf? then b
    else if b.NegInf? then a
    else Finite(num.logAddExp(a.r, b.r))
  }

  /** A value that is a probability in log space: finite, or log 0. */
  predicate IsLogProb(a: LogP)
  {
    a.NegInf? || a.Finite?
  }

  /** Shifting by a finite amount keeps the kind of every value. */
  lemma AddFinite(a: LogP, c: LogP)
    requires c.Finite?
    ensures Add(a, c).Finite? <==> a.Finite?
    ensures Add(a, c).NegInf? <==> a.NegInf?
    ensures Add(a, c).NaN? <==> a.NaN?
  {
  }

  /** Mixing in a finite component: the result is finite exactly when the
      other operand is finite or log 0. */
  lemma LogAddExpFinite(num: Numerics, c: LogP, a: LogP)
    requires c.Finite?
    ensures LogAddExp(num, c, a).Finite? <==> IsLogProb(a)
  {
  }
}

/** Python's exceptions as far as the modelled code raises them. */
module Python {

  datatype Exception =
    | KeyError(at: nat)          // a term (at this position of the input) is missing from a dict
    | ValueError                 // unpacking the wrong number of fields, a bad number, an empty reduction
    | NameError(name: string)    // a name that is bound nowhere
    | AttributeError(name: string)
    | UnboundLocalError(name: string)

  /** The result of a call: a value, or the exception it raises. */
  datatype Outcome<+T> = Ok(value: T) | Raise(exc: Exception)

  /** An optional argument whose default is `None`. */
  datatype Option<+T> = None | Some(value: T)

  /** `if x is None: x = default`. */
  function OrDefault<T>(x: Option<T>, default: T): T
  {
    if x.None? then default else x.value
  }
}
