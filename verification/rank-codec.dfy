/**
 Ranks: fixed-width base-36 strings whose dictionary order is meant to be the order of the
 numbers they were made from.
 */
module RankCodec {
  import opened Options
  import opened Digits
  import opened Arithmetic

  const RANK_WIDTH := 10
  const RANK_BASE := 36
  const RANK_STEP := 1024

  /** 36^10, the number of ranks of width 10. */
  const RANK_LIMIT := 3_656_158_440_062_976

  predicate IsLowerAlnum(c: char) {
    '0' <= c <= '9' || 'a' <= c <= 'z'
  }

  /** A digit or a letter of either case. */
  predicate IsAlnum(c: char) {
    IsLowerAlnum(c) || 'A' <= c <= 'Z'
  }

  predicate AllAlnum(s: string) {
    forall i :: 0 <= i < |s| ==> IsAlnum(s[i])
  }

  function LowerChar(c: char): (l: char)
    ensures IsAlnum(c) ==> IsLowerAlnum(l)
  {
    if 'A' <= c <= 'Z' then (c as int - 'A' as int + 'a' as int) as char else c
  }

  function ToLower(s: string): (l: string)
    ensures |l| == |s|
  {
    seq(|s|, i requires 0 <= i < |s| => LowerChar(s[i]))
  }

  function DigitChar(d: nat): (c: char)
    requires d < RANK_BASE
    ensures IsLowerAlnum(c) && DigitValue(c) == d
  {
    if d < 10 then ('0' as int + d) as char else ('a' as int + d - 10) as char
  }

  /** The base-36 digit that a lower-case alphanumeric character denotes. */
  function DigitValue(c: char): (d: nat)
    requires IsLowerAlnum(c)
    ensures d < RANK_BASE
  {
    if c <= '9' then c as int - '0' as int else c as int - 'a' as int + 10
  }

  function Encode(ds: seq<nat>): (s: string)
    requires Below(ds, RANK_BASE)
    ensures |s| == |ds|
  {
    seq(|ds|, i requires 0 <= i < |ds| => DigitChar(ds[i]))
  }

  function Decode(s: string): (ds: seq<nat>)
    requires forall i :: 0 <= i < |s| ==> IsLowerAlnum(s[i])
    ensures |ds| == |s| && Below(ds, RANK_BASE)
  {
    seq(|s|, i requires 0 <= i < |s| => DigitValue(s[i]))
  }

  /** Comparison of strings by code unit. */
  predicate LexLess(a: string, b: string) {
    b != "" && (a == "" || a[0] < b[0] || (a[0] == b[0] && LexLess(a[1..], b[1..])))
  }

  predicate IsRank(s: string) {
    |s| == RANK_WIDTH && forall i :: 0 <= i < |s| ==> IsLowerAlnum(s[i])
  }

  /** The meaning of a rank string: the number its lower-cased digits denote in base 36. */
  function ParsedRank(rank: Option<string>): Option<nat> {
    if rank.None? || rank.value == "" || !AllAlnum(rank.value) then None
    else Some(Value(Decode(ToLower(rank.value)), RANK_BASE))
  }

  /** Read a rank left to right. */
  method ParseRankValue(rank: Option<string>) returns (result: Option<nat>)
    ensures result == ParsedRank(rank)
  {
    if rank.None? || rank.value == "" || !AllAlnum(rank.value) {
      return None;
    }
    var chars := ToLower(rank.value);
    var acc: nat := 0;
    for i := 0 to |chars|
      invariant acc == Value(Decode(chars)[..i], RANK_BASE)
    {
      var d := DigitValue(chars[i]);
      assert Decode(chars)[..i + 1] == Decode(chars)[..i] + [d];
      ValueAppend(Decode(chars)[..i], d, RANK_BASE);
      acc := acc * RANK_BASE + d;
    }
    assert Decode(chars)[..|chars|] == Decode(chars);
    result := Some(acc);
  }

  /** Letters of either case and digits make a rank, anything else does not, and the case does not matter. */
  lemma RankAccepted(rank: Option<string>)
    ensures
      ParsedRank(rank).Some? <==>
      && rank.Some? && rank.value != ""
      && forall i :: 0 <= i < |rank.value| ==>
           var c := rank.value[i]; '0' <= c <= '9' || 'a' <= c <= 'z' || 'A' <= c <= 'Z'
    ensures ParsedRank(rank).Some? ==>
              ParsedRank(Some(ToLower(rank.value))) == ParsedRank(rank)
              && forall i :: 0 <= i < |rank.value| ==>
                   var c := rank.value[i];
                   ToLower(rank.value)[i] == if 'A' <= c <= 'Z' then 'a' + (c - 'A') else c
  {
    if rank.Some? && AllAlnum(rank.value) {
      LowerIsIdentity(ToLower(rank.value));
    }
  }

  function FormatRankValue(value: int): (s: string)
    ensures IsRank(s)
  {
    if value < 0 then seq(RANK_WIDTH, _ => '0')
    else
      var digits := Encode(DigitsOf(value, RANK_BASE));
      var padded := PadStart(digits, RANK_WIDTH, '0');
      LastItems(padded, RANK_WIDTH)
  }

  // -------------------------------------------------------------------------
  // Characters and digits
  // -------------------------------------------------------------------------

  lemma DecodeEncode(ds: seq<nat>)
    requires Below(ds, RANK_BASE)
    ensures Decode(Encode(ds)) == ds
  {}

  lemma EncodeDecode(s: string)
    requires forall i :: 0 <= i < |s| ==> IsLowerAlnum(s[i])
    ensures Encode(Decode(s)) == s
  {}

  lemma {:induction false} EncodeKeepsOrder(a: seq<nat>, b: seq<nat>)
    requires Below(a, RANK_BASE) && Below(b, RANK_BASE)
    ensures LexLess(Encode(a), Encode(b)) <==> Digits.LexLess(a, b)
  {
    if a != [] && b != [] {
      EncodeKeepsOrder(a[1..], b[1..]);
      assert Encode(a)[1..] == Encode(a[1..]);
      assert Encode(b)[1..] == Encode(b[1..]);
    }
  }

  lemma RankLimitIsPower()
    ensures Pow(RANK_BASE, RANK_WIDTH) == RANK_LIMIT
  {
    assert Pow(36, 2) == 1296;
    assert Pow(36, 4) == 36 * (36 * 1296);
    assert Pow(36, 6) == 36 * (36 * Pow(36, 4));
    assert Pow(36, 8) == 36 * (36 * Pow(36, 6));
    assert Pow(36, 10) == 36 * (36 * Pow(36, 8));
  }

  // -------------------------------------------------------------------------
  // Round trips and order
  // -------------------------------------------------------------------------

  /** The formatted rank spells the ten low base-36 digits. */
  lemma {:induction false} FormatIsLowDigits(v: nat)
    ensures FormatRankValue(v) == Encode(LowDigits(v, RANK_BASE, RANK_WIDTH))
  {
    var ds := DigitsOf(v, RANK_BASE);
    ValueOfDigits(v, RANK_BASE);
    FitIsLowDigits(ds, RANK_BASE, RANK_WIDTH);
    FitEncode(ds, RANK_WIDTH);
  }

  lemma FitShort<T>(s: seq<T>, n: nat, fill: T)
    requires |s| < n
    ensures Fit(s, n, fill) == PadStart(s, n, fill)
  {}

  lemma FitLong<T>(s: seq<T>, n: nat, fill: T)
    requires n <= |s|
    ensures Fit(s, n, fill) == s[|s| - n..]
  {}

  lemma EncodePadded(ds: seq<nat>, n: nat)
    requires Below(ds, RANK_BASE)
    ensures Below(PadStart(ds, n, 0), RANK_BASE)
    ensures Encode(PadStart(ds, n, 0)) == PadStart(Encode(ds), n, '0')
  {}

  lemma EncodeSuffix(ds: seq<nat>, k: nat)
    requires Below(ds, RANK_BASE) && k <= |ds|
    ensures Below(ds[k..], RANK_BASE) && Encode(ds[k..]) == Encode(ds)[k..]
  {}

  lemma FitEncode(ds: seq<nat>, n: nat)
    requires Below(ds, RANK_BASE)
    ensures Below(Fit(ds, n, 0), RANK_BASE)
    ensures Fit(Encode(ds), n, '0') == Encode(Fit(ds, n, 0))
  {
    if |ds| < n {
      FitShort(ds, n, 0);
      FitShort(Encode(ds), n, '0');
      EncodePadded(ds, n);
    } else {
      FitLong(ds, n, 0);
      FitLong(Encode(ds), n, '0');
      EncodeSuffix(ds, |ds| - n);
    }
  }

  lemma LowerIsIdentity(s: string)
    requires forall i :: 0 <= i < |s| ==> IsLowerAlnum(s[i])
    ensures AllAlnum(s) && ToLower(s) == s
  {}

  lemma {:induction false} ParsedDigits(ds: seq<nat>)
    requires Below(ds, RANK_BASE) && ds != []
    ensures ParsedRank(Some(Encode(ds))) == Some(Value(ds, RANK_BASE))
  {
    LowerIsIdentity(Encode(ds));
    DecodeEncode(ds);
  }

  /** Parsing a formatted value gives it back modulo 36^10; below 36^10 it is the value itself. */
  lemma ParseFormat(v: nat)
    ensures ParsedRank(Some(FormatRankValue(v))) == Some(v % RANK_LIMIT)
    ensures v < RANK_LIMIT ==> ParsedRank(Some(FormatRankValue(v))) == Some(v)
  {
    FormatIsLowDigits(v);
    ParsedDigits(LowDigits(v, RANK_BASE, RANK_WIDTH));
    ValueOfLowDigits(v, RANK_BASE, RANK_WIDTH);
    RankLimitIsPower();
    if v < RANK_LIMIT {
      DivModUnique(0, v, RANK_LIMIT);
    }
  }

  /** A negative number is formatted like zero. */
  lemma NegativeIsZero(v: int)
    requires v < 0
    ensures FormatRankValue(v) == FormatRankValue(0)
  {
    FormatIsLowDigits(0);
    LowDigitsOfZero(RANK_BASE, RANK_WIDTH);
  }

  /** Formatting a parsed string gives its lower-cased last ten characters, zero-padded on the left. */
  lemma FormatParse(s: string)
    requires s != "" && AllAlnum(s)
    ensures FormatRankValue(ParsedRank(Some(s)).value) == Fit(ToLower(s), RANK_WIDTH, '0')
    ensures |s| == RANK_WIDTH ==> FormatRankValue(ParsedRank(Some(s)).value) == ToLower(s)
  {
    var l := ToLower(s);
    var ds := Decode(l);
    FormatIsLowDigits(Value(ds, RANK_BASE));
    FitIsLowDigits(ds, RANK_BASE, RANK_WIDTH);
    FitEncode(ds, RANK_WIDTH);
    EncodeDecode(l);
  }

  /** Between ranks, dictionary order is the order of the parsed numbers, and equal numbers mean equal ranks. */
  lemma {:induction false} RankOrder(a: string, b: string)
    requires IsRank(a) && IsRank(b)
    ensures LexLess(a, b) <==> ParsedRank(Some(a)).value < ParsedRank(Some(b)).value
    ensures ParsedRank(Some(a)) == ParsedRank(Some(b)) ==> a == b
  {
    LowerIsIdentity(a);
    LowerIsIdentity(b);
    EncodeDecode(a);
    EncodeDecode(b);
    EncodeKeepsOrder(Decode(a), Decode(b));
    LexIsNumeric(Decode(a), Decode(b), RANK_BASE);
  }

  /** Formatting embeds the order of the numbers below 36^10. */
  lemma FormatEmbedsOrder(v: nat, w: nat)
    requires v < RANK_LIMIT && w < RANK_LIMIT
    ensures v < w <==> LexLess(FormatRankValue(v), FormatRankValue(w))
  {
    ParseFormat(v);
    ParseFormat(w);
    RankOrder(FormatRankValue(v), FormatRankValue(w));
  }

  // -------------------------------------------------------------------------
  // Sibling ranks
  // -------------------------------------------------------------------------

  /** The rank given to the k-th sibling (from 1) when siblings are created one after the other. */
  function SiblingRank(k: nat): string {
    FormatRankValue(k * RANK_STEP)
  }

  predicate SiblingRanksIncrease(n: nat) {
    forall j, k :: 1 <= j < k <= n ==> LexLess(SiblingRank(j), SiblingRank(k))
  }

  const SIBLING_LIMIT := 3_570_467_226_624

  /**
   Ranks of n siblings are in creation order exactly when n is below 36^10/1024: the sibling
   that reaches the limit wraps around to the smallest rank of all.
   */
  lemma SiblingRanksIncreaseIff(n: nat)
    ensures SiblingRanksIncrease(n) <==> n < SIBLING_LIMIT
  {
    if n < SIBLING_LIMIT {
      forall j, k | 1 <= j < k <= n ensures LexLess(SiblingRank(j), SiblingRank(k)) {
        FormatEmbedsOrder(j * RANK_STEP, k * RANK_STEP);
      }
    } else {
      SiblingRankWraps();
    }
  }

  lemma SiblingRankWraps()
    ensures !LexLess(SiblingRank(1), SiblingRank(SIBLING_LIMIT))
  {
    assert SIBLING_LIMIT * RANK_STEP == RANK_LIMIT;
    ParseFormat(RANK_LIMIT);
    ParseFormat(RANK_STEP);
    RankOrder(SiblingRank(1), SiblingRank(SIBLING_LIMIT));
  }
}
