/**
 Positional numerals as digit sequences, most significant digit first: the value they
 denote, the digits of a number, fixed-width digits, and dictionary order.
 */
module Digits {
  import opened Arithmetic

  function Pow(base: nat, n: nat): nat {
    if n == 0 then 1 else base * Pow(base, n - 1)
  }

  predicate Below(ds: seq<nat>, base: nat) {
    forall i :: 0 <= i < |ds| ==> ds[i] < base
  }

  /** The number a digit sequence denotes: each digit times the weight of its position. */
  function Value(ds: seq<nat>, base: nat): nat {
    if ds == [] then 0 else ds[0] * Pow(base, |ds| - 1) + Value(ds[1..], base)
  }

  /** The digits of `v` without leading zeros; zero is the single digit 0. */
  function DigitsOf(v: nat, base: nat): (ds: seq<nat>)
    requires base >= 2
    ensures |ds| > 0 && Below(ds, base)
    decreases v
  {
    if v < base then [v]
    else
      QuotientSmaller(v, base);
      DigitsOf(v / base, base) + [v % base]
  }

  /** The `n` least significant digits of `v`. */
  function LowDigits(v: nat, base: nat, n: nat): (ds: seq<nat>)
    requires base >= 2
    ensures |ds| == n && Below(ds, base)
    decreases n
  {
    if n == 0 then [] else LowDigits(v / base, base, n - 1) + [v % base]
  }

  /** The sequence extended on the left to length n. */
  function PadStart<T>(s: seq<T>, n: nat, fill: T): (p: seq<T>)
    ensures |p| == if |s| < n then n else |s|
  {
    seq(if |s| < n then n - |s| else 0, _ => fill) + s
  }

  /** The last n items, or all when there are fewer. */
  function LastItems<T>(s: seq<T>, n: nat): (t: seq<T>)
    ensures |t| == if |s| < n then |s| else n
  {
    if |s| < n then s else s[|s| - n..]
  }

  /** Pad on the left up to width n, then keep the last n items. */
  function Fit<T>(s: seq<T>, n: nat, fill: T): (r: seq<T>)
    ensures |r| == n
  {
    LastItems(PadStart(s, n, fill), n)
  }

  /** Dictionary order: the first difference decides, and a proper prefix comes first. */
  predicate LexLess(a: seq<nat>, b: seq<nat>) {
    b != [] && (a == [] || a[0] < b[0] || (a[0] == b[0] && LexLess(a[1..], b[1..])))
  }

  // -------------------------------------------------------------------------
  // Value
  // -------------------------------------------------------------------------

  /** Appending a digit is one Horner step, so reading left to right computes the positional value. */
  lemma {:induction false} ValueAppend(ds: seq<nat>, d: nat, base: nat)
    ensures Value(ds + [d], base) == Value(ds, base) * base + d
  {
    if ds == [] {
      assert Pow(base, 0) == 1;
    } else {
      assert (ds + [d])[1..] == ds[1..] + [d];
      ValueAppend(ds[1..], d, base);
      HornerStep(ds[0], base, Pow(base, |ds| - 1), Value(ds[1..], base), d);
    }
  }

  lemma {:induction false} ValueBound(ds: seq<nat>, base: nat)
    requires Below(ds, base)
    ensures Value(ds, base) < Pow(base, |ds|)
  {
    if ds != [] {
      ValueBound(ds[1..], base);
      DigitDominates(ds[0], base, Pow(base, |ds| - 1), Value(ds[1..], base));
    }
  }

  /** The digits of a number denote it. */
  lemma {:induction false} ValueOfDigits(v: nat, base: nat)
    requires base >= 2
    ensures Value(DigitsOf(v, base), base) == v
    decreases v
  {
    if v < base {
      ValueAppend([], v, base);
      assert [] + [v] == [v];
    } else {
      QuotientSmaller(v, base);
      var q, d := v / base, v % base;
      ValueOfDigits(q, base);
      ValueAppend(DigitsOf(q, base), d, base);
    }
  }

  lemma {:induction false} PowPositive(base: nat, n: nat)
    requires base > 0
    ensures Pow(base, n) > 0
  {
    if n > 0 {
      PowPositive(base, n - 1);
      DigitDominates(0, base, Pow(base, n - 1), 0);
    }
  }

  /** The low n digits denote the number modulo base^n. */
  lemma {:induction false} ValueOfLowDigits(v: nat, base: nat, n: nat)
    requires base >= 2
    ensures Pow(base, n) > 0
    ensures Value(LowDigits(v, base, n), base) == v % Pow(base, n)
    decreases n
  {
    if n > 0 {
      ValueOfLowDigits(v / base, base, n - 1);
      ValueAppend(LowDigits(v / base, base, n - 1), v % base, base);
      ModStep(v, base, Pow(base, n - 1));
    }
  }

  lemma {:induction false} LowDigitsOfZero(base: nat, n: nat)
    requires base >= 2
    ensures LowDigits(0, base, n) == seq(n, _ => 0)
    decreases n
  {
    if n > 0 {
      LowDigitsOfZero(base, n - 1);
    }
  }

  lemma LowDigitsAppend(q: nat, d: nat, base: nat, n: nat)
    requires base >= 2 && d < base && n > 0
    ensures LowDigits(q * base + d, base, n) == LowDigits(q, base, n - 1) + [d]
  {
    DivModUnique(q, d, base);
  }

  lemma FitAppend(ds: seq<nat>, d: nat, n: nat)
    requires n > 0
    ensures Fit(ds + [d], n, 0) == Fit(ds, n - 1, 0) + [d]
  {}

  lemma {:induction false} FitStep(init: seq<nat>, last: nat, base: nat, n: nat)
    requires base >= 2 && last < base && n > 0
    requires Fit(init, n - 1, 0) == LowDigits(Value(init, base), base, n - 1)
    ensures Fit(init + [last], n, 0) == LowDigits(Value(init + [last], base), base, n)
  {
    ValueAppend(init, last, base);
    LowDigitsAppend(Value(init, base), last, base, n);
    FitAppend(init, last, n);
  }

  /** Padding with zeros and keeping the last n digits keeps the low n digits of the value. */
  lemma {:induction false} FitIsLowDigits(ds: seq<nat>, base: nat, n: nat)
    requires base >= 2 && Below(ds, base)
    ensures Fit(ds, n, 0) == LowDigits(Value(ds, base), base, n)
    decreases n
  {
    if ds == [] {
      LowDigitsOfZero(base, n);
    } else if n > 0 {
      var init, last := ds[..|ds| - 1], ds[|ds| - 1];
      FitIsLowDigits(init, base, n - 1);
      FitStep(init, last, base, n);
      assert ds == init + [last];
    }
  }

  // -------------------------------------------------------------------------
  // Order
  // -------------------------------------------------------------------------

  /** Among digit sequences of one width, dictionary order is numeric order. */
  lemma {:induction false} LexIsNumeric(a: seq<nat>, b: seq<nat>, base: nat)
    requires Below(a, base) && Below(b, base) && |a| == |b|
    ensures LexLess(a, b) <==> Value(a, base) < Value(b, base)
    ensures Value(a, base) == Value(b, base) ==> a == b
  {
    if a != [] {
      var p := Pow(base, |a| - 1);
      LexIsNumeric(a[1..], b[1..], base);
      ValueBound(a[1..], base);
      ValueBound(b[1..], base);
      if a[0] < b[0] {
        DigitDominates(a[0], b[0], p, Value(a[1..], base));
      } else if b[0] < a[0] {
        DigitDominates(b[0], a[0], p, Value(b[1..], base));
      } else {
        assert a == [a[0]] + a[1..] && b == [b[0]] + b[1..];
      }
    }
  }
}
