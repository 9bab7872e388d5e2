/**
  The text conversions `parsimonious.py` applies to every input line, as
  Python 2 defines them for a byte string: `str.split()` with no separator,
  `int(s)` and `float(s)`. A conversion that Python refuses with
  `ValueError` yields `None` here.
 */
module Records {
  import opened Python

  // ---------------------------------------------------------------------
  // `str.split()`

  /** The whitespace of Python 2's `str.split()`: space, and tab, line feed,
      vertical tab, form feed and carriage return (codes 9 to 13). */
  predicate IsSpace(c: char)
  {
    c == ' ' || '\t' <= c <= '\r'
  }

  /** A field `split` can return: non-empty and without whitespace. */
  predicate IsWord(w: string)
  {
    w != [] && forall k | 0 <= k < |w| :: !IsSpace(w[k])
  }

  /** The length of the run of non-whitespace characters that starts `s`. */
  function WordLength(s: string): (n: nat)
    ensures n <= |s|
    ensures forall k | 0 <= k < n :: !IsSpace(s[k])
    ensures n < |s| ==> IsSpace(s[n])
  {
    if s == [] || IsSpace(s[0]) then 0 else 1 + WordLength(s[1..])
  }

  /** `s.split()`: the maximal runs of non-whitespace characters, in order;
      leading, trailing and repeated whitespace yields no field. */
  function Split(s: string): (r: seq<string>)
    ensures forall k | 0 <= k < |r| :: IsWord(r[k])
    decreases |s|
  {
    if s == [] then []
    else if IsSpace(s[0]) then Split(s[1..])
    else
      var n := WordLength(s);
      [s[..n]] + Split(s[n..])
  }

  /** `" ".join(words)`. */
  function Join(words: seq<string>): string
  {
    if words == [] then ""
    else if |words| == 1 then words[0]
    else words[0] + " " + Join(words[1..])
  }

  /** A word followed by nothing or by whitespace is read whole. */
  lemma WordLengthOfWord(w: string, rest: string)
    requires IsWord(w) && (rest == [] || IsSpace(rest[0]))
    ensures WordLength(w + rest) == |w|
  {
    var s := w + rest;
    assert forall k | 0 <= k < |w| :: s[k] == w[k] && !IsSpace(s[k]);
    assert rest != [] ==> IsSpace(s[|w|]);
  }

  /** Splitting undoes joining with single spaces: `" ".join(ws).split() ==
      ws` for fields without whitespace. */
  lemma {:induction false} SplitJoin(words: seq<string>)
    requires forall k | 0 <= k < |words| :: IsWord(words[k])
    ensures Split(Join(words)) == words
  {
    if words == [] {
    } else if |words| == 1 {
      var w := words[0];
      WordLengthOfWord(w, "");
      assert w + "" == w;
      assert w[|w|..] == [];
    } else {
      var w, rest := words[0], Join(words[1..]);
      var s := w + " " + rest;
      WordLengthOfWord(w, " " + rest);
      assert s == w + (" " + rest);
      assert s[..|w|] == w;
      assert s[|w|..] == " " + rest;
      assert (" " + rest)[1..] == rest;
      SplitJoin(words[1..]);
      assert words == [w] + words[1..];
    }
  }

  // ---------------------------------------------------------------------
  // `int(s)` and `float(s)`

  predicate IsDigit(c: char)
  {
    '0' <= c <= '9'
  }

  /** Every character is a decimal digit (the empty string qualifies). */
  predicate OnlyDigits(s: string)
  {
    forall k | 0 <= k < |s| :: IsDigit(s[k])
  }

  /** The number a string of decimal digits spells, most significant first. */
  function DigitsValue(s: string): nat
    requires OnlyDigits(s)
  {
    if s == [] then 0 else 10 * DigitsValue(s[..|s| - 1]) + (s[|s| - 1] as int - '0' as int)
  }

  /** An optional leading sign: whether it is `-`, and the rest. */
  function SignSplit(s: string): (bool, string)
  {
    if s != [] && (s[0] == '+' || s[0] == '-') then (s[0] == '-', s[1..]) else (false, s)
  }

  /** `int(s)` on a field without whitespace: an optional sign followed by
      one or more decimal digits. */
  function ParseInt(s: string): Option<int>
  {
    var (negative, digits) := SignSplit(s);
    if digits != [] && OnlyDigits(digits) then
      var v: int := DigitsValue(digits);
      Some(if negative then -v else v)
    else None
  }

  /** The position of the first `c` in `s`, or `|s|` when there is none. */
  function Find(s: string, c: char): (k: nat)
    ensures k <= |s| && (k < |s| ==> s[k] == c)
    ensures forall j | 0 <= j < k :: s[j] != c
  {
    if s == [] || s[0] == c then 0 else 1 + Find(s[1..], c)
  }

  /** The position of the first exponent mark, `e` or `E`, or `|s|`. */
  function FindExponent(s: string): (k: nat)
    ensures k <= |s| && (k < |s| ==> s[k] in "eE")
    ensures forall j | 0 <= j < k :: s[j] !in "eE"
  {
    if s == [] || s[0] in "eE" then 0 else 1 + FindExponent(s[1..])
  }

  function Pow10(n: nat): (r: nat)
    ensures r >= 1
  {
    if n == 0 then 1 else 10 * Pow10(n - 1)
  }

  /** `10 ** x` for an integer exponent. */
  function Scale(x: int): real
  {
    if x >= 0 then Pow10(x) as real else 1.0 / Pow10(-x) as real
  }

  /** The unsigned significand of a float literal: digits with at most one
      point, and at least one digit on some side of it. */
  function ParseSignificand(s: string): Option<real>
  {
    var p := Find(s, '.');
    if p == |s| then
      if s != [] && OnlyDigits(s) then Some(DigitsValue(s) as real) else None
    else
      var whole, fraction := s[..p], s[p + 1..];
      if (whole == [] && fraction == []) || !OnlyDigits(whole) || !OnlyDigits(fraction) then None
      else Some(DigitsValue(whole) as real + DigitsValue(fraction) as real / Pow10(|fraction|) as real)
  }

  /** `float(s)` on a field without whitespace: an optional sign, a
      significand, and an optional exponent `e` or `E` with an optional sign
      and one or more digits; the value is the exact decimal one. */
  function ParseFloat(s: string): Option<real>
  {
    var (negative, body) := SignSplit(s);
    var e := FindExponent(body);
    var significand := ParseSignificand(body[..e]);
    var exponent := if e == |body| then Some(0) else ParseInt(body[e + 1..]);
    if significand.None? || exponent.None? then None
    else
      var v := significand.value * Scale(exponent.value);
      Some(if negative then -v else v)
  }

  /** The decimal digits of `n`, most significant first. */
  function ShowNat(n: nat): (s: string)
    ensures s != [] && OnlyDigits(s)
  {
    (if n < 10 then "" else ShowNat(n / 10)) + [('0' as int + n % 10) as char]
  }

  /** `str(n)`. */
  function ShowInt(n: int): string
  {
    if n < 0 then "-" + ShowNat(-n) else ShowNat(n)
  }

  lemma {:induction false} ShowNatValue(n: nat)
    ensures DigitsValue(ShowNat(n)) == n
  {
    var s := ShowNat(n);
    assert s[..|s| - 1] == if n < 10 then "" else ShowNat(n / 10);
    if n >= 10 {
      ShowNatValue(n / 10);
    }
  }

  /** Digits alone are read as their value. */
  lemma ParseDigits(s: string)
    requires s != [] && OnlyDigits(s)
    ensures ParseInt(s) == Some(DigitsValue(s) as int)
    ensures ParseInt("-" + s) == Some(-(DigitsValue(s) as int))
  {
    assert !(s[0] == '+' || s[0] == '-');
    assert ("-" + s)[0] == '-' && ("-" + s)[1..] == s;
  }

  /** `int(str(n)) == n`. */
  lemma ParseShowInt(n: int)
    ensures ParseInt(ShowInt(n)) == Some(n)
  {
    var m := if n < 0 then -n else n;
    ShowNatValue(m);
    ParseDigits(ShowNat(m));
  }

  /** A string `int` accepts, `float` accepts too, with the same value. */
  lemma IntIsFloat(s: string)
    requires ParseInt(s).Some?
    ensures ParseFloat(s) == Some(ParseInt(s).value as real)
  {
    var (negative, body) := SignSplit(s);
    assert FindExponent(body) == |body|;
    assert body[..|body|] == body;
  }
}
