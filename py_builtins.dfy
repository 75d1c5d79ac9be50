/** The two Python built-ins the pricing engine leans on: `str.upper`, which decides the
    strategy branch and names the strategy in the report, and `round(x, ndigits)`, which
    rounds every number of the report. */
module PyBuiltins {
  import opened RealArith

  /** Python's uppercase image of one character, for ASCII, for Latin-1 and for
      every character whose uppercase is spelt only with letters of `FAST_FLIP`
      (sharp s, dotless i, long s and the Latin ligatures, which expand to two or three
      capitals). Every other character is its own image here. */
  function UpperChar(c: char): (r: string)
    ensures |r| >= 1
  {
    if 'a' <= c <= 'z' then [(c as int - 32) as char]
    else if '\U{00E0}' <= c <= '\U{00FE}' && c != '\U{00F7}' then [(c as int - 32) as char]
    else if c == '\U{00B5}' then "\U{039C}"
    else if c == '\U{00FF}' then "\U{0178}"
    else if c == '\U{00DF}' then "SS"
    else if c == '\U{0131}' then "I"
    else if c == '\U{017F}' then "S"
    else if c == '\U{FB00}' then "FF"
    else if c == '\U{FB01}' then "FI"
    else if c == '\U{FB02}' then "FL"
    else if c == '\U{FB03}' then "FFI"
    else if c == '\U{FB04}' then "FFL"
    else if c == '\U{FB05}' then "ST"
    else if c == '\U{FB06}' then "ST"
    else [c]
  }

  /** `s.upper()`: each character replaced by its uppercase image, in order. */
  function Upper(s: string): (r: string)
    ensures |r| >= |s|
  {
    if s == [] then [] else UpperChar(s[0]) + Upper(s[1..])
  }

  /** Upper-casing works character by character, so it distributes over concatenation. */
  lemma {:induction false} UpperAppend(a: string, b: string)
    ensures Upper(a + b) == Upper(a) + Upper(b)
  {
    if a == [] {
      assert a + b == b;
    } else {
      assert (a + b)[1..] == a[1..] + b;
      UpperAppend(a[1..], b);
      assert UpperChar(a[0]) + (Upper(a[1..]) + Upper(b)) == (UpperChar(a[0]) + Upper(a[1..])) + Upper(b);
    }
  }

  /** A string of capitals, digits and underscores is its own uppercase. */
  lemma {:induction false} UpperKeepsCapitals(s: string)
    requires forall i :: 0 <= i < |s| ==> 'A' <= s[i] <= 'Z' || '0' <= s[i] <= '9' || s[i] == '_'
    ensures Upper(s) == s
  {
    if s != [] {
      UpperKeepsCapitals(s[1..]);
    }
  }

  /** On small letters, digits and underscores, upper-casing moves each small letter to
      its capital and keeps everything else. */
  lemma {:induction false} UpperOfSmallLetters(s: string)
    requires forall i :: 0 <= i < |s| ==> 'a' <= s[i] <= 'z' || '0' <= s[i] <= '9' || s[i] == '_'
    ensures |Upper(s)| == |s|
    ensures forall i :: 0 <= i < |s| ==>
      Upper(s)[i] == if 'a' <= s[i] <= 'z' then (s[i] as int - 32) as char else s[i]
  {
    if s != [] {
      UpperOfSmallLetters(s[1..]);
    }
  }

  /** The uppercase image of a character is already upper case. */
  lemma UpperCharStable(c: char)
    ensures Upper(UpperChar(c)) == UpperChar(c)
  {
    var r := UpperChar(c);
    if |r| == 1 {
      assert r[1..] == [];
      assert UpperChar(r[0]) == r;
    } else {
      UpperKeepsCapitals(r);
    }
  }

  /** Upper-casing twice is upper-casing once. */
  lemma {:induction false} UpperIdempotent(s: string)
    ensures Upper(Upper(s)) == Upper(s)
  {
    if s != [] {
      UpperAppend(UpperChar(s[0]), Upper(s[1..]));
      UpperCharStable(s[0]);
      UpperIdempotent(s[1..]);
    }
  }

  function Pow10(n: nat): (p: nat)
    ensures p >= 1
  {
    if n == 0 then 1 else 10 * Pow10(n - 1)
  }

  /** The integer nearest to `y`, ties going to the even neighbour, as Python rounds. */
  function RoundHalfEven(y: real): (k: int)
    ensures y - 0.5 <= k as real <= y + 0.5
    ensures (k as real - y == 0.5 || y - k as real == 0.5) ==> k % 2 == 0
  {
    var f := y.Floor;
    var frac := y - f as real;
    if frac < 0.5 then f
    else if frac > 0.5 then f + 1
    else if f % 2 == 0 then f
    else f + 1
  }

  /** There is only one integer that is nearest with ties to even, so the contract of
      RoundHalfEven pins its result down. */
  lemma NearestEvenUnique(y: real, j: int)
    requires y - 0.5 <= j as real <= y + 0.5
    requires (j as real - y == 0.5 || y - j as real == 0.5) ==> j % 2 == 0
    ensures j == RoundHalfEven(y)
  {
  }

  lemma DivideBound(d: real, p: real)
    requires p >= 1.0 && -0.5 <= d <= 0.5
    ensures -0.5 / p <= d / p <= 0.5 / p
  {
    assert d / p * p == d;
    assert 0.5 / p * p == 0.5;
  }

  /** Rounding to a multiple of `1 / scale`: `x` scaled up, rounded to an integer with
      ties to even, and scaled back; the result never moves `x` by more than half a step. */
  function RoundToStep(x: real, scale: real): (r: real)
    requires scale >= 1.0
    ensures r * scale == RoundHalfEven(x * scale) as real
    ensures x - 0.5 / scale <= r <= x + 0.5 / scale
  {
    var k := RoundHalfEven(x * scale);
    assert k as real / scale - x == (k as real - x * scale) / scale;
    DivideBound(k as real - x * scale, scale);
    k as real / scale
  }

  /** `round(x, ndigits)`: the nearest multiple of 10^-ndigits, ties to even. The
      quartiles, the recommendation and (for a positive median and a volatility of at
      most 1.0) the score are numpy float64 values, whose `round` scales by 10^ndigits,
      rounds half to even and divides back; the ratios and the confidence are Python
      floats, whose `round` rounds the exact value. Over exact reals both are this
      function. */
  function Round(x: real, ndigits: nat): (r: real)
    ensures var p := Pow10(ndigits) as real;
      x - 0.5 / p <= r <= x + 0.5 / p
  {
    RoundToStep(x, Pow10(ndigits) as real)
  }

  /** Rounding to nearest, ties to even, never reverses the order of two numbers. */
  lemma RoundHalfEvenMonotone(y1: real, y2: real)
    requires y1 <= y2
    ensures RoundHalfEven(y1) <= RoundHalfEven(y2)
  {
  }

  /** Rounding to a step is monotone. */
  lemma RoundToStepMonotone(x1: real, x2: real, scale: real)
    requires x1 <= x2 && scale >= 1.0
    ensures RoundToStep(x1, scale) <= RoundToStep(x2, scale)
  {
    MulNonNegative(x2 - x1, scale);
    assert x2 * scale - x1 * scale == (x2 - x1) * scale;
    RoundHalfEvenMonotone(x1 * scale, x2 * scale);
    var r1, r2 := RoundToStep(x1, scale), RoundToStep(x2, scale);
    RatioAbove(r1, scale, RoundHalfEven(x1 * scale) as real, r2);
  }

  /** `round(x, ndigits)` is monotone in `x`. */
  lemma RoundMonotone(x1: real, x2: real, ndigits: nat)
    requires x1 <= x2
    ensures Round(x1, ndigits) <= Round(x2, ndigits)
  {
    RoundToStepMonotone(x1, x2, Pow10(ndigits) as real);
  }
}
