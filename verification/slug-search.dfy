/**
 Finding a free workspace slug: the base itself, or the base with the first number behind it
 that makes it free.
 */
module SlugSearch {
  import opened Digits
  import opened Arithmetic

  function DecimalChar(d: nat): char
    requires d < 10
  {
    ('0' as int + d) as char
  }

  /** A number in decimal, as template strings print it. */
  function Decimal(n: nat): string {
    var ds := DigitsOf(n, 10);
    seq(|ds|, i requires 0 <= i < |ds| => DecimalChar(ds[i]))
  }

  /** The k-th slug tried. */
  function Candidate(base: string, k: nat): string {
    if k == 0 then base else base + "-" + Decimal(k)
  }

  lemma DecimalInjective(m: nat, n: nat)
    requires Decimal(m) == Decimal(n)
    ensures m == n
  {
    var ds, es := DigitsOf(m, 10), DigitsOf(n, 10);
    assert |Decimal(m)| == |ds| && |Decimal(n)| == |es|;
    forall i | 0 <= i < |ds| ensures ds[i] == es[i] {
      assert Decimal(m)[i] == DecimalChar(ds[i]) && Decimal(n)[i] == DecimalChar(es[i]);
    }
    assert ds == es;
    ValueOfDigits(m, 10);
    ValueOfDigits(n, 10);
  }

  /** The number a decimal text denotes, read left to right. */
  function DecimalValue(s: string): int {
    if s == "" then 0 else DecimalValue(s[..|s| - 1]) * 10 + (s[|s| - 1] as int - '0' as int)
  }

  predicate IsNumeral(s: string) {
    s != "" && (forall i :: 0 <= i < |s| ==> '0' <= s[i] <= '9') && (|s| > 1 ==> s[0] != '0')
  }

  /** The decimal text is the numeral of the number, without leading zeros. */
  lemma {:induction false} DecimalDenotes(n: nat)
    ensures IsNumeral(Decimal(n)) && DecimalValue(Decimal(n)) == n && (n > 0 ==> Decimal(n)[0] != '0')
  {
    if n < 10 {
      assert Decimal(n) == [DecimalChar(n)];
      assert DecimalValue([DecimalChar(n)][..0]) == 0;
    } else {
      QuotientSmaller(n, 10);
      DecimalDenotes(n / 10);
      assert DigitsOf(n, 10) == DigitsOf(n / 10, 10) + [n % 10];
      assert Decimal(n) == Decimal(n / 10) + [DecimalChar(n % 10)];
      assert Decimal(n)[..|Decimal(n)| - 1] == Decimal(n / 10);
    }
  }

  /** The first slug tried is the base; the k-th after it is the base, a dash and the numeral of k. */
  lemma CandidateForm(base: string, k: nat) returns (suffix: string)
    ensures if k == 0 then Candidate(base, k) == base
            else Candidate(base, k) == base + "-" + suffix && IsNumeral(suffix) && DecimalValue(suffix) == k
  {
    suffix := Decimal(k);
    DecimalDenotes(k);
  }

  /** No slug is tried twice. */
  lemma CandidatesDiffer(base: string, j: nat, k: nat)
    requires Candidate(base, j) == Candidate(base, k)
    ensures j == k
  {
    if j == 0 || k == 0 {
      assert |Candidate(base, 0)| == |base|;
    } else {
      var prefix := base + "-";
      assert Candidate(base, j)[|prefix|..] == Decimal(j);
      assert Candidate(base, k)[|prefix|..] == Decimal(k);
      DecimalInjective(j, k);
    }
  }

  /** The first n slugs tried. */
  function FirstCandidates(base: string, n: nat): set<string> {
    if n == 0 then {} else FirstCandidates(base, n - 1) + {Candidate(base, n - 1)}
  }

  lemma {:induction false} FirstCandidatesCount(base: string, n: nat)
    ensures |FirstCandidates(base, n)| == n
    ensures forall k :: 0 <= k < n ==> Candidate(base, k) in FirstCandidates(base, n)
    ensures forall s :: s in FirstCandidates(base, n) ==> exists k :: 0 <= k < n && s == Candidate(base, k)
  {
    if n > 0 {
      FirstCandidatesCount(base, n - 1);
      if Candidate(base, n - 1) in FirstCandidates(base, n - 1) {
        var k :| 0 <= k < n - 1 && Candidate(base, n - 1) == Candidate(base, k);
        CandidatesDiffer(base, n - 1, k);
      }
    }
  }

  /** If the first n candidates are all taken, there are at least n taken slugs. */
  lemma {:induction false} Pigeonhole(base: string, taken: set<string>, n: nat)
    requires forall k :: 0 <= k < n ==> Candidate(base, k) in taken
    ensures n <= |taken|
  {
    FirstCandidatesCount(base, n);
    var tried := FirstCandidates(base, n);
    forall s | s in tried ensures s in taken {
      var k :| 0 <= k < n && s == Candidate(base, k);
    }
    assert tried <= taken;
    assert |taken - tried| == |taken| - |tried|;
  }

  /**
   The search: it stops after at most |taken| + 1 probes, with the first candidate that is not
   taken.
   */
  method GenerateSlug(base: string, taken: set<string>) returns (slug: string, attempt: nat)
    ensures slug !in taken && slug == Candidate(base, attempt)
    ensures forall k :: 0 <= k < attempt ==> Candidate(base, k) in taken
    ensures attempt <= |taken|
  {
    slug, attempt := base, 0;
    while slug in taken
      invariant slug == Candidate(base, attempt)
      invariant forall k :: 0 <= k < attempt ==> Candidate(base, k) in taken
      invariant attempt <= |taken|
      decreases |taken| - attempt
    {
      Pigeonhole(base, taken, attempt + 1);
      attempt := attempt + 1;
      slug := base + "-" + Decimal(attempt);
    }
  }
}
