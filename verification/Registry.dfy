/**
 * Exact atomic-unit arithmetic, printing and parsing (src/modules/crypto/registry.ts, `money` in src/lib/commands.ts).
 */
module Registry {
  import opened Common

  function Pow10(n: nat): (r: nat)
    ensures r > 0
  {
    if n == 0 then 1 else 10 * Pow10(n - 1)
  }

  /** Cents to atomic units; the source throws below two decimals. */
  function UsdMinorToAtomic(minor: nat, decimals: nat): nat
    requires decimals >= 2
  {
    minor * Pow10(decimals - 2)
  }

  /** Atomic units to cents when exact, otherwise None. JavaScript's remainder is zero exactly when this one is. */
  function AtomicToUsdMinor(atomic: int, decimals: nat): Option<int>
    requires decimals >= 2
  {
    var scale := Pow10(decimals - 2);
    if atomic % scale == 0 then Some(atomic / scale) else None
  }

  lemma MultipleApart(k: int, d: int)
    requires k > 0
    ensures d >= 1 ==> k * d >= k
    ensures d <= -1 ==> k * d <= -k
  {
    if d >= 1 {
      assert k * d == k * (d - 1) + k;
    } else if d <= -1 {
      assert k * d == k * (d + 1) - k;
    }
  }

  lemma MulMod(m: int, k: int)
    requires k > 0
    ensures (m * k) % k == 0 && (m * k) / k == m
  {
    var n := m * k;
    var q, r := n / k, n % k;
    assert n == k * q + r;
    assert k * (m - q) == k * m - k * q == r;
    MultipleApart(k, m - q);
  }

  /** `atomicToUsdMinor` gives m back exactly on the atomic amount of m, and null on every amount of no m. */
  lemma CentExact(atomic: int, m: nat, decimals: nat)
    requires decimals >= 2
    ensures AtomicToUsdMinor(atomic, decimals) == Some(m) <==> atomic == UsdMinorToAtomic(m, decimals)
  {
    var k := Pow10(decimals - 2);
    MulMod(m, k);
    if AtomicToUsdMinor(atomic, decimals) == Some(m) {
      assert atomic == k * (atomic / k) + atomic % k;
    }
  }

  // ---- digit strings ------------------------------------------------------------------------------------------------

  predicate IsDigit(c: char) { '0' <= c <= '9' }

  predicate Digits(s: string) { forall i :: 0 <= i < |s| ==> IsDigit(s[i]) }

  function DigitOf(n: nat): (c: char)
    requires n < 10
    ensures IsDigit(c)
  {
    '0' + n as char
  }

  /** The number a digit string denotes. */
  function Val(s: string): nat
    requires Digits(s)
  {
    if s == "" then 0 else 10 * Val(s[..|s| - 1]) + (s[|s| - 1] - '0') as int
  }

  /** A number printed in base ten. */
  function ToString(n: nat): (s: string)
    ensures Digits(s) && s != ""
  {
    if n < 10 then [DigitOf(n)] else ToString(n / 10) + [DigitOf(n % 10)]
  }

  function Zeros(n: nat): (s: string)
    ensures |s| == n && forall i :: 0 <= i < n ==> s[i] == '0'
  {
    seq(n, i => '0')
  }

  function PadStart(s: string, n: nat): (r: string)
    ensures Digits(s) ==> Digits(r)
    ensures |r| == if |s| < n then n else |s|
  {
    if |s| < n then Zeros(n - |s|) + s else s
  }

  function PadEnd(s: string, n: nat): (r: string)
    ensures Digits(s) ==> Digits(r)
    ensures s <= r && |r| == if |s| < n then n else |s|
  {
    if |s| < n then s + Zeros(n - |s|) else s
  }

  /** `replace(/0+$/, '')`. */
  function StripZeros(s: string): (r: string)
    ensures r <= s && (r != "" ==> r[|r| - 1] != '0')
    ensures s == r + Zeros(|s| - |r|)
  {
    if s != "" && s[|s| - 1] == '0' then StripZeros(s[..|s| - 1]) else s
  }

  lemma Regroup(v: nat, p: nat, w: nat, d: nat)
    ensures 10 * (v * p + w) + d == v * (10 * p) + (10 * w + d)
  {
  }

  lemma {:induction false} ValAppend(a: string, b: string)
    requires Digits(a) && Digits(b)
    ensures Digits(a + b) && Val(a + b) == Val(a) * Pow10(|b|) + Val(b)
  {
    if b == "" {
      assert a + b == a;
    } else {
      var init := b[..|b| - 1];
      ValAppend(a, init);
      assert (a + b)[..|a + b| - 1] == a + init && (a + b)[|a + b| - 1] == b[|b| - 1];
      Regroup(Val(a), Pow10(|init|), Val(init), (b[|b| - 1] - '0') as int);
    }
  }

  lemma {:induction false} ValZeros(n: nat)
    ensures Val(Zeros(n)) == 0
  {
    if n > 0 {
      assert Zeros(n)[..n - 1] == Zeros(n - 1);
      ValZeros(n - 1);
    }
  }

  lemma {:induction false} ValToString(n: nat)
    ensures Val(ToString(n)) == n
  {
    if n < 10 {
      assert ToString(n)[..0] == "";
    } else {
      ValToString(n / 10);
      assert ToString(n)[..|ToString(n)| - 1] == ToString(n / 10);
    }
  }

  lemma {:induction false} NoLeadingZero(n: nat)
    ensures n > 0 ==> ToString(n)[0] != '0'
  {
    if n >= 10 {
      NoLeadingZero(n / 10);
      assert ToString(n)[0] == ToString(n / 10)[0];
    }
  }

  /** A digit string without a leading zero is the printing of its number. */
  lemma {:induction false} ToStringVal(s: string)
    requires Digits(s) && s != "" && (s[0] != '0' || |s| == 1)
    ensures ToString(Val(s)) == s
  {
    var init, last := s[..|s| - 1], (s[|s| - 1] - '0') as int;
    assert s == init + [s[|s| - 1]];
    if init == "" {
      assert Val(s) == last;
    } else {
      ToStringVal(init);
      PositiveVal(init);
      assert Val(s) == 10 * Val(init) + last;
    }
  }

  lemma {:induction false} PositiveVal(s: string)
    requires Digits(s) && s != "" && s[0] != '0'
    ensures Val(s) > 0
  {
    if |s| > 1 {
      PositiveVal(s[..|s| - 1]);
    }
  }

  lemma LeadingZeroVal(s: string)
    requires Digits(s) && s != "" && s[0] == '0'
    ensures Val(s) == Val(s[1..])
  {
    assert s == Zeros(1) + s[1..];
    ValZeros(1);
    ValAppend(Zeros(1), s[1..]);
  }

  lemma PadMore(t: string, n: nat)
    requires |t| <= n
    ensures PadStart(t, n + 1) == "0" + PadStart(t, n)
  {
  }

  lemma {:induction false} PrintedIsShort(s: string)
    requires Digits(s) && s != ""
    ensures |ToString(Val(s))| <= |s|
  {
    if s[0] != '0' || |s| == 1 {
      ToStringVal(s);
    } else {
      LeadingZeroVal(s);
      PrintedIsShort(s[1..]);
    }
  }

  /** Any digit string is its number, padded back to its length. */
  lemma {:induction false} PaddedVal(s: string)
    requires Digits(s) && s != ""
    ensures PadStart(ToString(Val(s)), |s|) == s
  {
    if s[0] != '0' || |s| == 1 {
      ToStringVal(s);
    } else {
      LeadingZeroVal(s);
      PaddedVal(s[1..]);
      PrintedIsShort(s[1..]);
      PadMore(ToString(Val(s[1..])), |s| - 1);
    }
  }

  // ---- printing and parsing -----------------------------------------------------------------------------------------

  /** The white space of `String.prototype.trim`. */
  predicate IsSpace(c: char)
  {
    '\U{9}' <= c <= '\U{D}' || c == ' ' || c == '\U{A0}' || c == '\U{1680}' || '\U{2000}' <= c <= '\U{200A}'
    || c == '\U{2028}' || c == '\U{2029}' || c == '\U{202F}' || c == '\U{205F}' || c == '\U{3000}' || c == '\U{FEFF}'
  }

  function TrimStart(s: string): string
  {
    if s != "" && IsSpace(s[0]) then TrimStart(s[1..]) else s
  }

  function TrimEnd(s: string): string
  {
    if s != "" && IsSpace(s[|s| - 1]) then TrimEnd(s[..|s| - 1]) else s
  }

  function Trim(s: string): string { TrimEnd(TrimStart(s)) }

  /** The fraction of the printed number: trailing zeros dropped, but two places kept where there are two. */
  function ShownFraction(fraction: string, decimals: nat): string
  {
    var stripped := StripZeros(fraction);
    if |stripped| < 2 && decimals >= 2 then PadEnd(stripped, 2) else stripped
  }

  function Join(whole: string, fraction: string): string
  {
    whole + if fraction == "" then "" else "." + fraction
  }

  /** The printed magnitude. */
  function FormatMagnitude(atomic: nat, decimals: nat): string
  {
    var digits := Printed(atomic, decimals);
    Join(WholeOf(digits, decimals), ShownFraction(FractionOf(digits, decimals), decimals))
  }

  function FormatAtomic(atomic: int, decimals: nat): string
  {
    if atomic < 0 then "-" + FormatMagnitude(-atomic, decimals) else FormatMagnitude(atomic, decimals)
  }

  datatype Decimal = Decimal(whole: string, fraction: string)

  function LeadingDigits(s: string): (n: nat)
    ensures n <= |s| && Digits(s[..n]) && (n < |s| ==> !IsDigit(s[n]))
  {
    if s == "" || !IsDigit(s[0]) then 0
    else
      var n := 1 + LeadingDigits(s[1..]);
      assert s[..n] == [s[0]] + s[1..][..n - 1];
      n
  }

  /** A match of digits, optionally followed by a point and more digits, over the whole string. */
  function MatchDecimal(s: string): (r: Option<Decimal>)
    ensures r.Some? ==> Digits(r.value.whole) && Digits(r.value.fraction) && r.value.whole != ""
    ensures r.Some? ==> s == Join(r.value.whole, r.value.fraction)
  {
    var n := LeadingDigits(s);
    if n == 0 then None
    else if n == |s| then Some(Decimal(s, ""))
    else if s[n] == '.' && n + 1 < |s| && LeadingDigits(s[n + 1..]) == |s| - n - 1 then
      assert s[n + 1..][..|s| - n - 1] == s[n + 1..];
      Some(Decimal(s[..n], s[n + 1..]))
    else None
  }

  function Atomic(whole: string, fraction: string, decimals: nat): nat
    requires Digits(whole) && Digits(fraction)
  {
    Val(whole) * Pow10(decimals) + Val(PadEnd(fraction, decimals))
  }

  datatype AmountError = InvalidDecimal | TooManyPlaces | OutOfRange

  function ParseDecimalToAtomic(value: string, decimals: nat): Result<nat, AmountError>
  {
    var found := MatchDecimal(Trim(value));
    if found.None? then Err(InvalidDecimal)
    else if |found.value.fraction| > decimals then Err(TooManyPlaces)
    else Ok(Atomic(found.value.whole, found.value.fraction, decimals))
  }

  const MAX_MINOR := 100_000_000_000

  /** `money`: no surrounding space, one or two places, a positive amount up to a billion dollars. */
  function Money(value: string): Result<nat, AmountError>
  {
    var found := MatchDecimal(value);
    if found.None? || |found.value.fraction| > 2 then Err(InvalidDecimal)
    else
      var minor := Val(found.value.whole) * 100 + Val((found.value.fraction + "00")[..2]);
      if minor <= 0 || minor > MAX_MINOR then Err(OutOfRange) else Ok(minor)
  }

  lemma {:induction false} LeadingDigitsUnique(s: string, n: nat)
    requires n <= |s| && Digits(s[..n]) && (n < |s| ==> !IsDigit(s[n]))
    ensures LeadingDigits(s) == n
  {
    if n > 0 {
      assert IsDigit(s[..n][0]);
      assert s[1..][..n - 1] == s[..n][1..];
      LeadingDigitsUnique(s[1..], n - 1);
    }
  }

  /** Exactly the strings of the form `whole` or `whole.fraction` match, and in one way. */
  lemma MatchExact(whole: string, fraction: string)
    requires Digits(whole) && Digits(fraction) && whole != ""
    ensures MatchDecimal(Join(whole, fraction)) == Some(Decimal(whole, fraction))
  {
    var s := Join(whole, fraction);
    assert s[..|whole|] == whole;
    LeadingDigitsUnique(s, |whole|);
    if fraction == "" {
      assert s == whole;
    } else {
      assert s[|whole| + 1..] == fraction && fraction[..|fraction|] == fraction;
      LeadingDigitsUnique(fraction, |fraction|);
    }
  }

  lemma TrimIdle(s: string)
    requires s != "" ==> !IsSpace(s[0]) && !IsSpace(s[|s| - 1])
    ensures Trim(s) == s
  {
  }

  lemma MatchedEndsInDigits(s: string)
    requires MatchDecimal(s).Some?
    ensures s != "" && IsDigit(s[0]) && IsDigit(s[|s| - 1])
  {
    var m := MatchDecimal(s).value;
    if m.fraction == "" {
      assert s == m.whole;
    } else {
      assert s[0] == m.whole[0];
      assert s[|s| - 1] == m.fraction[|m.fraction| - 1];
    }
  }

  lemma DigitIsNoSpace(c: char)
    requires IsDigit(c)
    ensures !IsSpace(c)
  {
  }

  lemma MatchedIsTrimmed(s: string)
    requires MatchDecimal(s).Some?
    ensures Trim(s) == s
  {
    MatchedEndsInDigits(s);
    DigitIsNoSpace(s[0]);
    DigitIsNoSpace(s[|s| - 1]);
    TrimIdle(s);
  }

  lemma ShownRestores(fraction: string, decimals: nat)
    requires Digits(fraction) && |fraction| == decimals
    ensures var shown := ShownFraction(fraction, decimals);
            Digits(shown) && |shown| <= decimals && PadEnd(shown, decimals) == fraction
  {
    var stripped := StripZeros(fraction);
    assert fraction == stripped + Zeros(decimals - |stripped|);
    var shown := ShownFraction(fraction, decimals);
    assert |shown| <= decimals;
    assert forall i :: 0 <= i < |shown| ==> shown[i] == fraction[i];
    assert forall i :: |shown| <= i < decimals ==> fraction[i] == '0';
    assert PadEnd(shown, decimals) == fraction;
  }

  /** The digits that are printed, before they are cut at the point. */
  function Printed(atomic: nat, decimals: nat): (digits: string)
    ensures Digits(digits) && |digits| > decimals
  {
    PadStart(ToString(atomic), decimals + 1)
  }

  lemma PrintedVal(atomic: nat, decimals: nat)
    ensures Val(Printed(atomic, decimals)) == atomic
  {
    var printed := ToString(atomic);
    ValToString(atomic);
    if |printed| < decimals + 1 {
      ValZeros(decimals + 1 - |printed|);
      ValAppend(Zeros(decimals + 1 - |printed|), printed);
    }
  }

  function WholeOf(digits: string, decimals: nat): (s: string)
    requires Digits(digits) && |digits| > decimals
    ensures Digits(s) && s != ""
  {
    digits[..|digits| - decimals]
  }

  function FractionOf(digits: string, decimals: nat): (s: string)
    requires Digits(digits) && |digits| > decimals
    ensures Digits(s) && |s| == decimals
  {
    digits[|digits| - decimals..]
  }

  lemma SplitVal(digits: string, decimals: nat)
    requires Digits(digits) && |digits| > decimals
    ensures Val(WholeOf(digits, decimals)) * Pow10(decimals) + Val(FractionOf(digits, decimals)) == Val(digits)
  {
    assert digits == WholeOf(digits, decimals) + FractionOf(digits, decimals);
    ValAppend(WholeOf(digits, decimals), FractionOf(digits, decimals));
  }

  lemma FormatMatches(atomic: nat, decimals: nat)
    ensures var digits := Printed(atomic, decimals);
            MatchDecimal(FormatMagnitude(atomic, decimals)) ==
            Some(Decimal(WholeOf(digits, decimals), ShownFraction(FractionOf(digits, decimals), decimals)))
  {
    var digits := Printed(atomic, decimals);
    ShownRestores(FractionOf(digits, decimals), decimals);
    MatchExact(WholeOf(digits, decimals), ShownFraction(FractionOf(digits, decimals), decimals));
  }

  lemma ParseMatched(s: string, whole: string, fraction: string, decimals: nat)
    requires Digits(whole) && Digits(fraction) && |fraction| <= decimals
    requires MatchDecimal(s) == Some(Decimal(whole, fraction))
    ensures ParseDecimalToAtomic(s, decimals) == Ok(Atomic(whole, fraction, decimals))
  {
    MatchedIsTrimmed(s);
  }

  lemma ShownVal(atomic: nat, decimals: nat)
    ensures var digits := Printed(atomic, decimals);
            var shown := ShownFraction(FractionOf(digits, decimals), decimals);
            Digits(shown) && |shown| <= decimals && Atomic(WholeOf(digits, decimals), shown, decimals) == atomic
  {
    var digits := Printed(atomic, decimals);
    ShownRestores(FractionOf(digits, decimals), decimals);
    SplitVal(digits, decimals);
    PrintedVal(atomic, decimals);
  }

  /** Parsing what was printed gives the amount back, for every amount and every number of decimals. */
  lemma RoundTrip(atomic: nat, decimals: nat)
    ensures ParseDecimalToAtomic(FormatAtomic(atomic, decimals), decimals) == Ok(atomic)
  {
    var digits := Printed(atomic, decimals);
    FormatMatches(atomic, decimals);
    ShownVal(atomic, decimals);
    ParseMatched(FormatAtomic(atomic, decimals), WholeOf(digits, decimals),
        ShownFraction(FractionOf(digits, decimals), decimals), decimals);
  }

  lemma MinusIsNotParsed(plain: string, decimals: nat)
    requires plain != "" && IsDigit(plain[|plain| - 1])
    ensures ParseDecimalToAtomic("-" + plain, decimals) == Err(InvalidDecimal)
  {
    var s := "-" + plain;
    DigitIsNoSpace(s[|s| - 1]);
    TrimIdle(s);
    assert LeadingDigits(s) == 0;
  }

  /** A negative amount prints to something the parser refuses. */
  lemma NegativeIsNotParsed(atomic: int, decimals: nat)
    requires atomic < 0
    ensures ParseDecimalToAtomic(FormatAtomic(atomic, decimals), decimals) == Err(InvalidDecimal)
  {
    FormatMatches(-atomic, decimals);
    MatchedEndsInDigits(FormatMagnitude(-atomic, decimals));
    MinusIsNotParsed(FormatMagnitude(-atomic, decimals), decimals);
  }

  /** The one way each amount is written: no leading zeros, and trailing zeros only to fill two places. */
  predicate Canonical(s: string, decimals: nat)
  {
    MatchDecimal(s).Some? && CanonicalParts(MatchDecimal(s).value.whole, MatchDecimal(s).value.fraction, decimals)
  }

  predicate CanonicalParts(whole: string, fraction: string, decimals: nat)
  {
    && whole != "" && (whole[0] != '0' || |whole| == 1)
    && |fraction| <= decimals && (decimals >= 2 ==> |fraction| >= 2)
    && (fraction == "" || (decimals >= 2 && |fraction| == 2) || fraction[|fraction| - 1] != '0')
  }

  lemma ShownIsCanonical(whole: string, fraction: string, decimals: nat)
    requires Digits(fraction) && |fraction| == decimals && whole != "" && (whole[0] != '0' || |whole| == 1)
    ensures CanonicalParts(whole, ShownFraction(fraction, decimals), decimals)
  {
  }

  lemma FormatIsCanonical(atomic: nat, decimals: nat)
    ensures Canonical(FormatAtomic(atomic, decimals), decimals)
  {
    var digits := Printed(atomic, decimals);
    FormatMatches(atomic, decimals);
    WholeHasNoLeadingZero(atomic, decimals);
    ShownIsCanonical(WholeOf(digits, decimals), FractionOf(digits, decimals), decimals);
  }

  lemma WholeHasNoLeadingZero(atomic: nat, decimals: nat)
    ensures var whole := WholeOf(Printed(atomic, decimals), decimals); whole[0] != '0' || |whole| == 1
  {
    NoLeadingZero(atomic);
    assert atomic == 0 ==> ToString(atomic) == "0";
  }

  lemma {:induction false} StripUnique(s: string, r: string)
    requires r <= s && s == r + Zeros(|s| - |r|) && (r != "" ==> r[|r| - 1] != '0')
    ensures StripZeros(s) == r
  {
    if |s| > |r| {
      assert s[..|s| - 1] == r + Zeros(|s| - 1 - |r|);
      StripUnique(s[..|s| - 1], r);
    }
  }

  lemma ShownCanonical(fraction: string, decimals: nat)
    requires Digits(fraction) && |fraction| <= decimals && (decimals >= 2 ==> |fraction| >= 2)
    requires fraction == "" || (decimals >= 2 && |fraction| == 2) || fraction[|fraction| - 1] != '0'
    ensures ShownFraction(PadEnd(fraction, decimals), decimals) == fraction
  {
    var padded := PadEnd(fraction, decimals);
    if fraction == "" || fraction[|fraction| - 1] != '0' {
      StripUnique(padded, fraction);
    } else {
      var kept := if fraction[0] != '0' then fraction[..1] else "";
      StripUnique(padded, kept);
      assert PadEnd(kept, 2) == fraction;
    }
  }

  /** Re-printing an accepted string gives the string itself exactly when it was canonical. */
  lemma CanonicalExact(s: string, decimals: nat)
    requires ParseDecimalToAtomic(s, decimals).Ok?
    ensures FormatAtomic(ParseDecimalToAtomic(s, decimals).value, decimals) == s <==> Canonical(s, decimals)
    ensures Canonical(FormatAtomic(ParseDecimalToAtomic(s, decimals).value, decimals), decimals)
  {
    FormatIsCanonical(ParseDecimalToAtomic(s, decimals).value, decimals);
    if Canonical(s, decimals) {
      var m := MatchDecimal(s).value;
      ParseMatched(s, m.whole, m.fraction, decimals);
      CanonicalPrints(m.whole, m.fraction, decimals);
    }
  }

  lemma AllDigits(whole: string, padded: string)
    requires Digits(whole) && Digits(padded) && whole != "" && (whole[0] != '0' || |whole| == 1)
    ensures PadStart(ToString(Val(whole) * Pow10(|padded|) + Val(padded)), |padded| + 1) == whole + padded
  {
    ValAppend(whole, padded);
    if whole[0] != '0' {
      ToStringVal(whole + padded);
    } else {
      PaddedVal(whole + padded);
    }
  }

  lemma PrintedDigits(whole: string, fraction: string, decimals: nat)
    requires Digits(whole) && Digits(fraction) && whole != "" && (whole[0] != '0' || |whole| == 1)
             && |fraction| <= decimals
    ensures Printed(Atomic(whole, fraction, decimals), decimals) == whole + PadEnd(fraction, decimals)
  {
    AllDigits(whole, PadEnd(fraction, decimals));
  }

  lemma MagnitudeFromDigits(atomic: nat, whole: string, padded: string, decimals: nat)
    requires whole != "" && |padded| == decimals && Printed(atomic, decimals) == whole + padded
    ensures FormatAtomic(atomic, decimals) == Join(whole, ShownFraction(padded, decimals))
  {
    var all := Printed(atomic, decimals);
    assert WholeOf(all, decimals) == whole && FractionOf(all, decimals) == padded;
  }

  lemma CanonicalPrints(whole: string, fraction: string, decimals: nat)
    requires Digits(whole) && Digits(fraction) && CanonicalParts(whole, fraction, decimals)
    ensures FormatAtomic(Atomic(whole, fraction, decimals), decimals) == Join(whole, fraction)
  {
    PrintedDigits(whole, fraction, decimals);
    MagnitudeFromDigits(Atomic(whole, fraction, decimals), whole, PadEnd(fraction, decimals), decimals);
    ShownCanonical(fraction, decimals);
  }

  lemma {:induction false} PowAdd(a: nat, b: nat)
    ensures Pow10(a + b) == Pow10(a) * Pow10(b)
  {
    if a > 0 {
      PowAdd(a - 1, b);
      assert Pow10(a + b) == 10 * Pow10(a - 1 + b);
      assert 10 * (Pow10(a - 1) * Pow10(b)) == (10 * Pow10(a - 1)) * Pow10(b);
    }
  }

  lemma Spread(a: nat, b: nat, p: nat, q: nat)
    ensures a * (p * q) + b * q == (a * p + b) * q
  {
    assert a * (p * q) == (a * p) * q;
  }

  /** Digits with two places, read with more of them. */
  lemma AtomicOfCents(whole: string, cents: string, decimals: nat)
    requires Digits(whole) && Digits(cents) && |cents| == 2 && decimals >= 2
    ensures Atomic(whole, cents, decimals) == UsdMinorToAtomic(Atomic(whole, cents, 2), decimals)
  {
    var k := decimals - 2;
    assert PadEnd(cents, decimals) == cents + Zeros(k) && PadEnd(cents, 2) == cents;
    assert Val(cents + Zeros(k)) == Val(cents) * Pow10(k) by {
      ValAppend(cents, Zeros(k));
      ValZeros(k);
    }
    PowAdd(2, k);
    Spread(Val(whole), Val(cents), Pow10(2), Pow10(k));
  }

  /**
   * The atomic amount of a price prints as the price itself, whatever the decimals of the asset; so reading the print
   * in cents gives the price back.
   */
  lemma PriceIsPrinted(minor: nat, decimals: nat)
    requires decimals >= 2
    ensures FormatAtomic(UsdMinorToAtomic(minor, decimals), decimals) == FormatAtomic(minor, 2)
    ensures ParseDecimalToAtomic(FormatAtomic(UsdMinorToAtomic(minor, decimals), decimals), 2) == Ok(minor)
  {
    var digits := Printed(minor, 2);
    var whole, cents := WholeOf(digits, 2), FractionOf(digits, 2);
    var s := FormatAtomic(minor, 2);
    FormatMatches(minor, 2);
    ShownRestores(cents, 2);
    assert ShownFraction(cents, 2) == cents;
    ShownVal(minor, 2);
    ParseMatched(s, whole, cents, decimals);
    AtomicOfCents(whole, cents, decimals);
    FormatIsCanonical(minor, 2);
    CanonicalExact(s, decimals);
    RoundTrip(minor, 2);
  }

  /** `money` is the parser at two decimals, restricted to untrimmed positive amounts in range. */
  lemma MoneyExact(s: string, minor: nat)
    ensures Money(s) == Ok(minor) <==> ParseDecimalToAtomic(s, 2) == Ok(minor) && Trim(s) == s && 0 < minor <= MAX_MINOR
  {
    var found := MatchDecimal(s);
    if found.Some? {
      MatchedIsTrimmed(s);
      assert Pow10(2) == 100 by { assert Pow10(1) == 10; }
      if |found.value.fraction| <= 2 {
        assert (found.value.fraction + "00")[..2] == PadEnd(found.value.fraction, 2);
      }
    }
  }
}
