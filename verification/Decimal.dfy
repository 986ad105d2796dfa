/**
  The analytics service's decimal strings: normalization to six places, conversion to and
  from integer millionths, and exact subtraction.
 */
module Decimal {
  import opened Prelude

  // ----- string operations -----

  /** What `trim` removes. */
  predicate IsSpace(c: char) {
    var u := c as int;
    || 0x9 <= u <= 0xD || u == 0x20 || u == 0xA0 || u == 0x1680 || 0x2000 <= u <= 0x200A
    || u == 0x2028 || u == 0x2029 || u == 0x202F || u == 0x205F || u == 0x3000 || u == 0xFEFF
  }

  /** The first index from `i` on that is not white space. */
  function SkipSpace(s: string, i: nat): (a: nat)
    requires i <= |s|
    ensures i <= a <= |s|
    decreases |s| - i
  {
    if i < |s| && IsSpace(s[i]) then SkipSpace(s, i + 1) else i
  }

  /** The end of `s[a..b]` without its trailing white space. */
  function BackUp(s: string, a: nat, b: nat): (e: nat)
    requires a <= b <= |s|
    ensures a <= e <= b
    decreases b
  {
    if a < b && IsSpace(s[b - 1]) then BackUp(s, a, b - 1) else b
  }

  function Trim(s: string): string {
    var a := SkipSpace(s, 0);
    s[a..BackUp(s, a, |s|)]
  }

  /** The first index from `i` on that holds `c`, or the length. */
  function Find(s: string, c: char, i: nat): (k: nat)
    requires i <= |s|
    ensures i <= k <= |s|
    decreases |s| - i
  {
    if i == |s| || s[i] == c then i else Find(s, c, i + 1)
  }

  /** `split('.')[0]`. */
  function Whole(s: string): string {
    s[..Find(s, '.', 0)]
  }

  /** `split('.')[1]`, empty if there is none. */
  function Fraction(s: string): string {
    var dot := Find(s, '.', 0);
    if dot == |s| then "" else Whole(s[dot + 1..])
  }

  lemma {:induction false} FindSkips(s: string, c: char, i: nat)
    requires i <= |s|
    ensures c !in s[i..Find(s, c, i)]
    decreases |s| - i
  {
    var k := Find(s, c, i);
    if i < k {
      FindSkips(s, c, i + 1);
      assert s[i..k] == [s[i]] + s[i + 1..k];
    }
  }

  lemma WholeHoldsNoPoint(s: string)
    ensures '.' !in Whole(s)
  {
    FindSkips(s, '.', 0);
    assert s[0..Find(s, '.', 0)] == Whole(s);
  }

  lemma FractionHoldsNoPoint(s: string)
    ensures '.' !in Fraction(s)
  {
    var dot := Find(s, '.', 0);
    if dot < |s| {
      WholeHoldsNoPoint(s[dot + 1..]);
    }
  }

  lemma {:induction false} FindIs(s: string, c: char, i: nat, k: nat)
    requires i <= k <= |s|
    requires forall j :: i <= j < k ==> s[j] != c
    requires k < |s| ==> s[k] == c
    ensures Find(s, c, i) == k
    decreases k - i
  {
    if i < k {
      FindIs(s, c, i + 1, k);
    }
  }

  lemma SplitParts(w: string, f: string)
    requires '.' !in w && '.' !in f
    ensures Whole(w + "." + f) == w && Fraction(w + "." + f) == f
  {
    var s := w + "." + f;
    forall j | 0 <= j < |w| ensures s[j] != '.' {
      assert s[j] == w[j];
    }
    FindIs(s, '.', 0, |w|);
    assert s[|w| + 1..] == f;
    FindIs(f, '.', 0, |f|);
  }

  predicate StartsWith(s: string, c: char) {
    s != "" && s[0] == c
  }

  /** `replace(/^[+-]/, '')`. */
  function StripSign(s: string): string {
    if StartsWith(s, '+') || StartsWith(s, '-') then s[1..] else s
  }

  /** `replace('-', '')`: the first dash only. */
  function RemoveDash(s: string): string {
    var k := Find(s, '-', 0);
    if k == |s| then s else s[..k] + s[k + 1..]
  }

  const ZEROS: string := ['0', '0', '0', '0', '0', '0']

  /** `(fractional + '000000').slice(0, 6)`. */
  function Six(f: string): (r: string)
    ensures |r| == 6
  {
    (f + ZEROS)[..6]
  }

  // ----- normalization -----

  /** An argument of `normalizeDecimal`: nothing, a string, or a number given by its string form. */
  datatype Value = Missing | Text(text: string) | Num(text: string)

  function Raw(v: Value): string {
    StripSign(Trim(if v.Missing? then "0" else v.text))
  }

  predicate Negative(v: Value) {
    v.Text? && StartsWith(Trim(v.text), '-')
  }

  /** The whole part as it is written out. */
  function WholeOut(v: Value): (w: string)
    ensures w != ""
  {
    var w := Whole(Raw(v));
    if w == "" then "0" else w
  }

  function FractionOut(v: Value): (f: string)
    ensures |f| == 6
  {
    Six(Fraction(Raw(v)))
  }

  /** A sign, a whole part, a point and a fraction. */
  function Written(negative: bool, w: string, f: string): string {
    (if negative then "-" else "") + w + "." + f
  }

  function NormalizeDecimal(v: Value): string {
    Written(Negative(v), WholeOut(v), FractionOut(v))
  }

  /** After trimming and one sign: the whole part begins with neither white space nor a plus and is not a lone dash,
      unless a dash was taken off; and a sixth fraction character is no white space. */
  predicate Stable(v: Value) {
    var w, f := Whole(Raw(v)), Fraction(Raw(v));
    && (|f| >= 6 ==> !IsSpace(f[5]))
    && (Negative(v) || w == "" || (!IsSpace(w[0]) && w[0] != '+' && w != "-"))
  }

  lemma SixOfSix(f: string)
    requires |f| == 6
    ensures Six(f) == f
  {
    assert (f + ZEROS)[..6] == f;
  }

  lemma TrimKeeps(s: string)
    requires s != "" && !IsSpace(s[0]) && !IsSpace(s[|s| - 1])
    ensures Trim(s) == s
  {
    assert SkipSpace(s, 0) == 0;
    assert s[0..|s|] == s;
  }

  lemma {:induction false} SkipSpaceStops(s: string, i: nat, k: nat)
    requires i <= k < |s| && !IsSpace(s[k])
    ensures SkipSpace(s, i) <= k
    decreases |s| - i
  {
    if IsSpace(s[i]) {
      SkipSpaceStops(s, i + 1, k);
    }
  }

  lemma {:induction false} BackUpStops(s: string, a: nat, b: nat, k: nat)
    requires a <= k < b <= |s| && !IsSpace(s[k])
    ensures k < BackUp(s, a, b)
    decreases b
  {
    if IsSpace(s[b - 1]) {
      BackUpStops(s, a, b - 1, k);
    }
  }

  lemma SliceAround(w: string, f: string, a: nat, e: nat)
    requires a <= |w| && e <= |f|
    ensures (w + "." + f)[a..|w| + 1 + e] == w[a..] + "." + f[..e]
  {
    var n, b := w + "." + f, |w| + 1 + e;
    assert n[a..b] == n[a..|w|] + n[|w|..|w| + 1] + n[|w| + 1..b];
    assert n[a..|w|] == w[a..] && n[|w|..|w| + 1] == "." && n[|w| + 1..b] == f[..e];
  }

  /** Trimming around a point takes white space off both ends and leaves the point. */
  lemma TrimAround(w: string, f: string) returns (a: nat, e: nat)
    ensures a <= |w| && e <= |f|
    ensures Trim(w + "." + f) == w[a..] + "." + f[..e]
    ensures w != "" ==> (a == 0 <==> !IsSpace(w[0]))
    ensures f != "" ==> (e == |f| <==> !IsSpace(f[|f| - 1]))
  {
    var n := w + "." + f;
    a := SkipSpace(n, 0);
    var b := BackUp(n, a, |n|);
    assert n[|w|] == '.' && !IsSpace('.');
    SkipSpaceStops(n, 0, |w|);
    BackUpStops(n, a, |n|, |w|);
    e := b - |w| - 1;
    SliceAround(w, f, a, e);
    assert w != "" ==> n[0] == w[0];
    assert f != "" ==> n[|n| - 1] == f[|f| - 1];
  }

  lemma StripBeforePoint(w: string, f: string)
    ensures StripSign(w + "." + f) == StripSign(w) + "." + f
    ensures StartsWith(w + "." + f, '-') == StartsWith(w, '-')
  {
    if w != "" {
      assert (w + "." + f)[0] == w[0];
      assert (w + "." + f)[1..] == w[1..] + "." + f;
    }
  }

  /** The whole part of a normal form, sign included. */
  function Signed(v: Value): (w: string)
    ensures w != ""
  {
    (if Negative(v) then "-" else "") + WholeOut(v)
  }

  lemma RawAround(n: string, x: string, y: string)
    requires Trim(n) == x + "." + y && '.' !in x && '.' !in y
    ensures Negative(Text(n)) == StartsWith(x, '-')
    ensures Whole(Raw(Text(n))) == StripSign(x) && Fraction(Raw(Text(n))) == y
  {
    StripBeforePoint(x, y);
    SplitParts(StripSign(x), y);
  }

  lemma OutHoldsNoPoint(v: Value)
    ensures '.' !in Signed(v) && '.' !in FractionOut(v)
  {
    WholeHoldsNoPoint(Raw(v));
    FractionHoldsNoPoint(Raw(v));
  }

  /** What normalizing a normal form again works on. */
  lemma NormalAgain(v: Value) returns (a: nat, e: nat)
    ensures var again := Text(NormalizeDecimal(v));
            && a <= |Signed(v)| && e <= 6
            && (a == 0 <==> !IsSpace(Signed(v)[0])) && (e == 6 <==> !IsSpace(FractionOut(v)[5]))
            && Negative(again) == StartsWith(Signed(v)[a..], '-')
            && Whole(Raw(again)) == StripSign(Signed(v)[a..])
            && Fraction(Raw(again)) == FractionOut(v)[..e]
  {
    var w, f := Signed(v), FractionOut(v);
    var n := NormalizeDecimal(v);
    OutHoldsNoPoint(v);
    assert n == w + "." + f;
    a, e := TrimAround(w, f);
    RawAround(n, w[a..], f[..e]);
  }

  lemma SixPads(f: string)
    requires |f| < 6
    ensures Six(f)[5] == '0'
  {
  }

  /** Nothing of the whole part that is written would go in a second pass. */
  predicate WholeStays(v: Value) {
    Negative(v) || (!IsSpace(WholeOut(v)[0]) && WholeOut(v)[0] != '+' && WholeOut(v) != "-")
  }

  lemma StableOut(v: Value)
    ensures Stable(v) <==> !IsSpace(FractionOut(v)[5]) && WholeStays(v)
  {
    var f := Fraction(Raw(v));
    assert !IsSpace('0');
    if |f| < 6 {
      SixPads(f);
    } else {
      assert Six(f)[5] == (f + ZEROS)[5];
    }
  }

  lemma PointInjective(w: string, f: string, w': string, f': string)
    requires '.' !in w && '.' !in f && '.' !in w' && '.' !in f'
    ensures w + "." + f == w' + "." + f' <==> w == w' && f == f'
  {
    SplitParts(w, f);
    SplitParts(w', f');
  }

  lemma FractionFinal(v: Value, e: nat)
    requires e <= 6 && (e == 6 <==> !IsSpace(FractionOut(v)[5]))
    ensures Six(FractionOut(v)[..e]) == FractionOut(v) <==> e == 6
  {
    var f := FractionOut(v);
    if e == 6 {
      assert f[..6] == f;
      SixOfSix(f);
    } else {
      SixPads(f[..e]);
      assert !IsSpace('0');
    }
  }

  /** The whole part that the second pass writes. */
  function WholeAgain(rest: string): string {
    (if StartsWith(rest, '-') then "-" else "") + if StripSign(rest) == "" then "0" else StripSign(rest)
  }

  lemma WholeAgainKeeps(w: string)
    requires w != "" && w[0] != '+' && w != "-"
    ensures WholeAgain(w) == w
  {
    assert w == [w[0]] + w[1..];
  }

  lemma WholeAgainChanges(w: string, a: nat)
    requires w != "" && a <= |w|
    requires w == "-" || (a == 0 && w[0] == '+') || (a > 0 && w[0] != '-' && w[0] != '0')
    ensures WholeAgain(w[a..]) != w
  {
    var rest := w[a..];
    var stripped := StripSign(rest);
    if a == 0 {
      assert rest == w;
    }
    if stripped == "" {
      assert WholeAgain(rest)[|WholeAgain(rest)| - 1] == '0';
    } else if StartsWith(rest, '-') {
      assert WholeAgain(rest)[0] == '-';
    } else {
      assert WholeAgain(rest) == stripped;
    }
  }

  lemma WholeFinal(v: Value, a: nat)
    requires a <= |Signed(v)| && (a == 0 <==> !IsSpace(Signed(v)[0]))
    ensures WholeAgain(Signed(v)[a..]) == Signed(v) <==> WholeStays(v)
  {
    var w := Signed(v);
    assert !IsSpace('-') && !IsSpace('0');
    if a == 0 && w[0] != '+' && w != "-" {
      assert w[a..] == w;
      WholeAgainKeeps(w);
    } else {
      WholeAgainChanges(w, a);
    }
    if !Negative(v) {
      assert w == WholeOut(v);
    }
  }

  /** Normalizing twice is the same as normalizing once exactly for the stable inputs. */
  lemma IdempotentExactlyWhen(v: Value)
    ensures NormalizeDecimal(Text(NormalizeDecimal(v))) == NormalizeDecimal(v) <==> Stable(v)
  {
    var again := Text(NormalizeDecimal(v));
    var a, e := NormalAgain(v);
    OutHoldsNoPoint(v);
    OutHoldsNoPoint(again);
    PointInjective(Signed(again), FractionOut(again), Signed(v), FractionOut(v));
    FractionFinal(v, e);
    WholeFinal(v, a);
    StableOut(v);
  }

  predicate AllSpace(s: string) {
    forall i :: 0 <= i < |s| ==> IsSpace(s[i])
  }

  lemma {:induction false} SkipsSpace(s: string, i: nat, k: nat)
    requires i <= k <= |s| && AllSpace(s[i..k]) && (k < |s| ==> !IsSpace(s[k]))
    ensures SkipSpace(s, i) == k
    decreases k - i
  {
    if i < k {
      assert s[i..k][0] == s[i] && s[i..k][1..] == s[i + 1..k];
      SkipsSpace(s, i + 1, k);
    }
  }

  lemma {:induction false} BacksUp(s: string, a: nat, b: nat, k: nat)
    requires a <= k <= b <= |s| && AllSpace(s[k..b]) && (a < k ==> !IsSpace(s[k - 1]))
    ensures BackUp(s, a, b) == k
    decreases b
  {
    if k < b {
      assert s[k..b][b - 1 - k] == s[b - 1] && s[k..b][..b - 1 - k] == s[k..b - 1];
      BacksUp(s, a, b - 1, k);
    }
  }

  /** Trimming takes off the white space around a text that neither begins nor ends with any. */
  lemma TrimIs(before: string, x: string, after: string)
    requires AllSpace(before) && AllSpace(after) && x != "" && !IsSpace(x[0]) && !IsSpace(x[|x| - 1])
    ensures Trim(before + x + after) == x
  {
    var s, a, b := before + x + after, |before|, |before| + |x|;
    assert s[..a] == before && s[a..b] == x && s[b..] == after;
    assert s[a] == x[0] && s[b - 1] == x[|x| - 1];
    SkipsSpace(s, 0, a);
    BacksUp(s, a, |s|, b);
  }

  /** A sign in front of a number, or none. */
  predicate SignBefore(sign: string, w: string) {
    sign == "+" || sign == "-" || (sign == "" && !StartsWith(w, '+') && !StartsWith(w, '-'))
  }

  lemma SignRead(sign: string, w: string)
    requires SignBefore(sign, w)
    ensures StripSign(sign + w) == w && StartsWith(sign + w, '-') == (sign == "-")
  {
    if sign == "" {
      assert sign + w == w;
    } else {
      assert (sign + w)[1..] == w;
    }
  }

  lemma SixIs(f: string)
    ensures Six(f) == if |f| >= 6 then f[..6] else f + ['0', '0', '0', '0', '0', '0'][|f|..]
  {
    if |f| < 6 {
      assert Six(f) == f + ZEROS[..6 - |f|];
      assert ZEROS[..6 - |f|] == ZEROS[|f|..];
    } else {
      assert Six(f) == f[..6];
    }
  }

  /** The normal form of what reads, once trimmed, as a sign or none, a whole part, a point and a fraction: only the
      dash is kept, an empty whole part is written as zero, and the fraction is cut or filled up to six characters. */
  lemma NormalForm(t: string, sign: string, w: string, f: string)
    requires '.' !in w && '.' !in f && SignBefore(sign, w) && Trim(t) == sign + w + "." + f
    ensures NormalizeDecimal(Text(t)) == (if sign == "-" then "-" else "") + (if w == "" then "0" else w) + "."
              + if |f| >= 6 then f[..6] else f + ['0', '0', '0', '0', '0', '0'][|f|..]
  {
    SignRead(sign, w);
    RawAround(t, sign + w, f);
    SixIs(f);
    assert NormalizeDecimal(Text(t)) == Written(sign == "-", if w == "" then "0" else w, Six(f));
  }

  lemma NoFraction(v: Value, w: string)
    requires '.' !in w && Raw(v) == w
    ensures Whole(Raw(v)) == w && FractionOut(v) == ZEROS
  {
    FindIs(w, '.', 0, |w|);
    assert w[..|w|] == w;
    assert Six("") == ZEROS;
  }

  /** The same without a point. */
  lemma NormalFormOfWhole(t: string, sign: string, w: string)
    requires '.' !in w && SignBefore(sign, w) && Trim(t) == sign + w
    ensures NormalizeDecimal(Text(t))
         == (if sign == "-" then "-" else "") + (if w == "" then "0" else w) + "." + ['0', '0', '0', '0', '0', '0']
  {
    SignRead(sign, w);
    NoFraction(Text(t), w);
  }

  /** A missing value is zero. */
  lemma MissingIsZero()
    ensures NormalizeDecimal(Missing) == "0.000000"
  {
    TrimKeeps("0");
    assert Raw(Missing) == "0";
    NoFraction(Missing, "0");
  }

  predicate IsDigit(c: char) {
    '0' <= c <= '9'
  }

  predicate AllDigits(s: string) {
    forall i :: 0 <= i < |s| ==> IsDigit(s[i])
  }

  lemma DigitsTrimmed(s: string)
    requires s != "" && IsDigit(s[|s| - 1]) && !IsSpace(s[0])
    ensures Trim(s) == s
  {
    TrimKeeps(s);
  }

  lemma FirstPlusGoes(digits: string)
    requires digits != "" && AllDigits(digits)
    ensures NormalizeDecimal(Text("++" + digits)) == "+" + digits + "." + ZEROS
  {
    var t := "++" + digits;
    DigitsTrimmed(t);
    assert t[1..] == "+" + digits;
    assert forall j :: 0 <= j < |t[1..]| ==> t[1..][j] != '.';
    FindIs(t[1..], '.', 0, |t[1..]|);
    assert t[1..][..|t[1..]|] == t[1..];
    assert Six("") == ZEROS;
  }

  lemma DigitsNo(s: string, c: char)
    requires AllDigits(s) && !IsDigit(c)
    ensures c !in s
  {
  }

  lemma SecondPlusGoes(digits: string)
    requires digits != "" && AllDigits(digits)
    ensures NormalizeDecimal(Text("+" + digits + "." + ZEROS)) == digits + "." + ZEROS
  {
    var n := "+" + digits + "." + ZEROS;
    DigitsTrimmed(n);
    DigitsNo(digits, '.');
    DigitsNo(ZEROS, '.');
    NormalForm(n, "+", digits, ZEROS);
    calc {
      NormalizeDecimal(Text(n));
      "" + digits + "." + ZEROS[..6];
      { assert "" + digits == digits && ZEROS[..6] == ZEROS; }
      digits + "." + ZEROS;
    }
  }

  /** The failing family is not empty: of two plus signs each pass removes one. */
  lemma DoublePlusNotIdempotent(digits: string)
    requires digits != "" && AllDigits(digits)
    ensures var once := NormalizeDecimal(Text("++" + digits));
            && once == "+" + digits + "." + ZEROS
            && NormalizeDecimal(Text(once)) == digits + "." + ZEROS != once
  {
    FirstPlusGoes(digits);
    SecondPlusGoes(digits);
  }

  /** A number normalizes like its string form exactly if that does not begin with a dash: numbers lose their sign. */
  lemma NumberKeepsSignExactlyWhen(t: string)
    ensures NormalizeDecimal(Num(t)) == NormalizeDecimal(Text(t)) <==> !StartsWith(Trim(t), '-')
  {
    assert Raw(Num(t)) == Raw(Text(t));
    assert |Written(true, WholeOut(Text(t)), FractionOut(Text(t)))| == |Written(false, WholeOut(Num(t)), FractionOut(Num(t)))| + 1;
  }

  // ----- digits -----

  function DigitOf(c: char): int {
    c as int - '0' as int
  }

  /** The number that the first `n` characters write in base ten. */
  function Numeral(s: string, n: nat): int
    requires n <= |s|
  {
    if n == 0 then 0 else 10 * Numeral(s, n - 1) + DigitOf(s[n - 1])
  }

  function DigitsValue(s: string): int {
    Numeral(s, |s|)
  }

  function DigitChar(d: nat): char
    requires d < 10
  {
    '0' + d as char
  }

  /** `toString` of a bigint that is not negative. */
  function Digits(n: nat): (s: string)
    ensures s != "" && AllDigits(s)
  {
    if n < 10 then [DigitChar(n)] else Digits(n / 10) + [DigitChar(n % 10)]
  }

  function Pow10(k: nat): (p: nat)
    ensures p > 0
  {
    if k == 0 then 1 else 10 * Pow10(k - 1)
  }

  lemma {:induction false} SamePrefix(s: string, t: string, n: nat)
    requires n <= |s| && n <= |t| && forall i :: 0 <= i < n ==> s[i] == t[i]
    ensures Numeral(s, n) == Numeral(t, n)
    decreases n
  {
    if n > 0 {
      SamePrefix(s, t, n - 1);
    }
  }

  lemma {:induction false} NumeralBound(s: string, n: nat)
    requires AllDigits(s) && n <= |s|
    ensures 0 <= Numeral(s, n) < Pow10(n)
    decreases n
  {
    if n > 0 {
      NumeralBound(s, n - 1);
      assert IsDigit(s[n - 1]);
    }
  }

  lemma TenTimes(a: int, p: int)
    ensures a * (10 * p) == 10 * (a * p)
  {
  }

  lemma {:induction false} NumeralAppend(a: string, b: string, k: nat)
    requires k <= |b|
    ensures Numeral(a + b, |a| + k) == DigitsValue(a) * Pow10(k) + Numeral(b, k)
    decreases k
  {
    if k == 0 {
      SamePrefix(a, a + b, |a|);
    } else {
      NumeralAppend(a, b, k - 1);
      TenTimes(DigitsValue(a), Pow10(k - 1));
      assert (a + b)[|a| + k - 1] == b[k - 1];
    }
  }

  lemma DigitsAppend(a: string, b: string)
    ensures DigitsValue(a + b) == DigitsValue(a) * Pow10(|b|) + DigitsValue(b)
  {
    NumeralAppend(a, b, |b|);
  }

  lemma {:induction false} ZerosValue(z: string, n: nat)
    requires n <= |z| && forall i :: 0 <= i < |z| ==> z[i] == '0'
    ensures Numeral(z, n) == 0
    decreases n
  {
    if n > 0 {
      ZerosValue(z, n - 1);
    }
  }

  lemma OneDigit(d: nat)
    requires d < 10
    ensures DigitsValue([DigitChar(d)]) == d
  {
    assert Numeral([DigitChar(d)], 0) == 0;
    assert DigitOf(DigitChar(d)) == d;
  }

  lemma {:induction false} DigitsOf(n: nat)
    ensures DigitsValue(Digits(n)) == n
    decreases n
  {
    OneDigit(n % 10);
    if n >= 10 {
      DigitsOf(n / 10);
      DigitsAppend(Digits(n / 10), [DigitChar(n % 10)]);
      assert Pow10(1) == 10;
    }
  }

  lemma {:induction false} DigitsLength(n: nat, k: nat)
    requires k > 0 && n < Pow10(k)
    ensures |Digits(n)| <= k
    decreases k
  {
    if n >= 10 {
      assert Pow10(1) == 10;
      DigitsLength(n / 10, k - 1);
    }
  }

  // ----- conversion -----

  /** `BigInt(text)` on decimal literals; `None` is its SyntaxError. */
  function BigInt(text: string): Option<int> {
    var t := Trim(text);
    if t == "" then Some(0)
    else if (t[0] == '+' || t[0] == '-') && |t| > 1 && AllDigits(t[1..]) then
      Some(if t[0] == '-' then 0 - DigitsValue(t[1..]) else DigitsValue(t[1..]))
    else if AllDigits(t) then Some(DigitsValue(t))
    else None
  }

  const MILLION: int := 1_000_000

  /** `sign * magnitude`. */
  function Signum(negative: bool, magnitude: int): (r: int)
    ensures r == if negative then 0 - magnitude else magnitude
  {
    (if negative then -1 else 1) * magnitude
  }

  /** The units of a decimal without its sign. */
  function Magnitude(m: string): Option<int> {
    var whole, fractional := BigInt(Whole(m)), BigInt(Fraction(m));
    if whole.None? || fractional.None? then None else Some(whole.value * MILLION + fractional.value)
  }

  /** The units of a normalized decimal. */
  function UnitsOfNormal(normalized: string): Option<int> {
    var magnitude := Magnitude(RemoveDash(normalized));
    if magnitude.None? then None else Some(Signum(StartsWith(normalized, '-'), magnitude.value))
  }

  function DecimalToUnits(value: string): Option<int> {
    UnitsOfNormal(NormalizeDecimal(Text(value)))
  }

  /** `padStart(6, '0')`. */
  function PadStart(s: string): string {
    if |s| >= 6 then s else ZEROS[|s|..] + s
  }

  function UnitsToDecimal(value: int): string {
    var absolute := if value < 0 then -value else value;
    Written(value < 0, Digits(absolute / MILLION), PadStart(Digits(absolute % MILLION)))
  }

  function SubtractDecimalStrings(left: string, right: string): Option<string> {
    var l, r := DecimalToUnits(left), DecimalToUnits(right);
    if l.None? || r.None? then None else Some(UnitsToDecimal(l.value - r.value))
  }

  // ----- decimals and their values -----

  /** An optional sign, digits, and optionally a point and more digits; white space around. */
  predicate IsDecimal(s: string) {
    var raw := Raw(Text(s));
    && AllDigits(Whole(raw)) && AllDigits(Fraction(raw))
    && (raw == Whole(raw) || raw == Whole(raw) + "." + Fraction(raw))
  }

  /** `m / p` in millionths, rounded down. */
  function Millionths(m: int, p: nat): int
    requires p > 0
  {
    m * MILLION / p
  }

  function Abs(x: int): nat {
    if x < 0 then -x else x
  }

  /** `units` is the value of the decimal `s`, truncated toward zero at six places. */
  predicate TruncatesTo(s: string, units: int)
    requires IsDecimal(s)
  {
    var w, f := Whole(Raw(Text(s))), Fraction(Raw(Text(s)));
    && (if Negative(Text(s)) then units <= 0 else units >= 0)
    && Abs(units) == Millionths(DigitsValue(w + f), Pow10(|f|))
  }

  lemma MulAssoc(a: int, b: int, c: int)
    ensures a * b * c == a * (b * c)
  {
  }

  lemma {:induction false} Pow10Add(a: nat, b: nat)
    ensures Pow10(a + b) == Pow10(a) * Pow10(b)
    decreases a
  {
    if a > 0 {
      Pow10Add(a - 1, b);
      MulAssoc(10, Pow10(a - 1), Pow10(b));
    }
  }

  lemma Million()
    ensures Pow10(6) == MILLION
  {
    assert Pow10(3) == 1000;
    assert Pow10(6) == 1000 * Pow10(3);
  }

  lemma SixDigits(f: string)
    requires AllDigits(f)
    ensures AllDigits(Six(f))
  {
    assert forall i :: 0 <= i < 6 ==> Six(f)[i] == (f + ZEROS)[i];
  }

  lemma MulMono(a: int, b: int, p: nat)
    requires a <= b
    ensures a * p <= b * p
  {
  }

  lemma MulSucc(a: int, p: int)
    ensures (a + 1) * p == a * p + p
  {
  }

  lemma ShortSix(f: string) returns (z: string)
    requires |f| <= 6
    ensures |z| == 6 - |f| && Six(f) == f + z && forall i :: 0 <= i < |z| ==> z[i] == '0'
  {
    z := ZEROS[..6 - |f|];
  }

  lemma ShortScale(v: int, n: nat)
    requires n <= 6
    ensures v * Pow10(6 - n) * Pow10(n) == v * MILLION
  {
    Pow10Add(6 - n, n);
    Million();
    MulAssoc(v, Pow10(6 - n), Pow10(n));
  }

  lemma QuotientIs(x: int, p: nat, u: int)
    requires u * p <= x < (u + 1) * p
    ensures p > 0 && x / p == u
  {
    if p == 0 {
    } else if x / p < u {
      MulMono(x / p + 1, u, p);
    } else if x / p > u {
      MulMono(u + 1, x / p, p);
    }
  }

  lemma ExactMillionths(g: int, d: int, p: nat)
    requires p > 0 && g * p == d * MILLION
    ensures Millionths(d, p) == g
  {
    MulSucc(g, p);
    QuotientIs(d * MILLION, p, g);
  }

  lemma CutMillionths(g: int, h: nat, d: int, q: nat, p: nat)
    requires h < q && d == g * q + h && p == MILLION * q
    ensures Millionths(d, p) == g
  {
    assert g * p == g * q * MILLION;
    MulSucc(g, p);
    QuotientIs(d * MILLION, p, g);
  }

  lemma LongSixValue(f: string)
    requires AllDigits(f) && |f| > 6
    ensures Six(f) == f[..6] && AllDigits(f[6..])
    ensures DigitsValue(f) == DigitsValue(f[..6]) * Pow10(|f| - 6) + DigitsValue(f[6..])
  {
    assert f == f[..6] + f[6..];
    DigitsAppend(f[..6], f[6..]);
  }

  lemma PaddedMillionths(f: string, z: string, padded: string)
    requires padded == f + z && |padded| == 6 && forall i :: 0 <= i < |z| ==> z[i] == '0'
    ensures DigitsValue(padded) == Millionths(DigitsValue(f), Pow10(|f|))
  {
    ZerosValue(z, |z|);
    DigitsAppend(f, z);
    ShortScale(DigitsValue(f), |f|);
    ExactMillionths(DigitsValue(padded), DigitsValue(f), Pow10(|f|));
  }

  lemma ShortSixTruncates(f: string)
    requires |f| <= 6
    ensures DigitsValue(Six(f)) == Millionths(DigitsValue(f), Pow10(|f|))
  {
    var z := ShortSix(f);
    PaddedMillionths(f, z, Six(f));
  }

  lemma LongSixTruncates(f: string)
    requires AllDigits(f) && |f| > 6
    ensures DigitsValue(Six(f)) == Millionths(DigitsValue(f), Pow10(|f|))
  {
    LongSixValue(f);
    NumeralBound(f[6..], |f| - 6);
    Pow10Add(6, |f| - 6);
    Million();
    CutMillionths(DigitsValue(f[..6]), DigitsValue(f[6..]), DigitsValue(f), Pow10(|f| - 6), Pow10(|f|));
  }

  /** The first six fraction digits are the truncated fraction. */
  lemma SixTruncates(f: string)
    requires AllDigits(f)
    ensures DigitsValue(Six(f)) == Millionths(DigitsValue(f), Pow10(|f|))
  {
    if |f| <= 6 {
      ShortSixTruncates(f);
    } else {
      LongSixTruncates(f);
    }
  }

  lemma AddWhole(w: int, m: int, p: nat, total: int)
    requires p > 0 && total == w * p + m
    ensures Millionths(total, p) == w * MILLION + Millionths(m, p)
  {
    var u := m * MILLION / p;
    var v := w * MILLION + u;
    MulSucc(u, p);
    MulSucc(v, p);
    assert u * p <= m * MILLION < u * p + p;
    assert v * p == w * p * MILLION + u * p;
    QuotientIs(total * MILLION, p, v);
  }

  lemma BigIntOfDigits(s: string)
    requires s != "" && AllDigits(s)
    ensures BigInt(s) == Some(DigitsValue(s))
  {
    DigitsTrimmed(s);
    assert IsDigit(s[0]);
  }

  lemma DashAbsent(m: string)
    requires '-' !in m
    ensures RemoveDash(m) == m && !StartsWith(m, '-')
  {
    FindIs(m, '-', 0, |m|);
  }

  lemma DashPresent(m: string)
    ensures RemoveDash("-" + m) == m && StartsWith("-" + m, '-')
  {
    var n := "-" + m;
    FindIs(n, '-', 0, 0);
    assert n[..0] + n[1..] == m;
  }

  lemma DashRemoved(negative: bool, w: string, f: string)
    requires AllDigits(w) && AllDigits(f)
    ensures RemoveDash(Written(negative, w, f)) == Written(false, w, f)
    ensures StartsWith(Written(negative, w, f), '-') == negative
  {
    DigitsNo(w, '-');
    DigitsNo(f, '-');
    assert Written(false, w, f) == w + "." + f;
    if negative {
      DashPresent(w + "." + f);
      assert Written(true, w, f) == "-" + (w + "." + f);
    } else {
      DashAbsent(w + "." + f);
    }
  }

  lemma MagnitudeOfParts(w: string, f: string)
    requires w != "" && AllDigits(w) && f != "" && AllDigits(f)
    ensures Magnitude(Written(false, w, f)) == Some(DigitsValue(w) * MILLION + DigitsValue(f))
  {
    DigitsNo(w, '.');
    DigitsNo(f, '.');
    SplitParts(w, f);
    assert Written(false, w, f) == w + "." + f;
    BigIntOfDigits(w);
    BigIntOfDigits(f);
  }

  lemma UnitsBySign(n: string, m: string, magnitude: int)
    requires RemoveDash(n) == m && Magnitude(m) == Some(magnitude)
    ensures UnitsOfNormal(n) == Some(Signum(StartsWith(n, '-'), magnitude))
  {
  }

  lemma UnitsOfNormalParts(negative: bool, w: string, f: string, magnitude: int)
    requires w != "" && AllDigits(w) && f != "" && AllDigits(f)
    requires magnitude == DigitsValue(w) * MILLION + DigitsValue(f)
    ensures UnitsOfNormal(Written(negative, w, f)) == Some(Signum(negative, magnitude))
  {
    DashRemoved(negative, w, f);
    MagnitudeOfParts(w, f);
    UnitsBySign(Written(negative, w, f), Written(false, w, f), magnitude);
  }

  lemma WholeOutValue(v: Value)
    requires AllDigits(Whole(Raw(v)))
    ensures AllDigits(WholeOut(v)) && DigitsValue(WholeOut(v)) == DigitsValue(Whole(Raw(v)))
  {
    OneDigit(0);
    assert "0" == [DigitChar(0)];
  }

  lemma DecimalParts(s: string)
    requires IsDecimal(s)
    ensures AllDigits(WholeOut(Text(s))) && AllDigits(FractionOut(Text(s)))
    ensures DigitsValue(WholeOut(Text(s))) == DigitsValue(Whole(Raw(Text(s))))
  {
    WholeOutValue(Text(s));
    SixDigits(Fraction(Raw(Text(s))));
  }

  /** What a decimal converts to, in terms of its digits. */
  lemma UnitsOfDigits(s: string, magnitude: int)
    requires IsDecimal(s)
    requires magnitude == DigitsValue(WholeOut(Text(s))) * MILLION + DigitsValue(FractionOut(Text(s)))
    ensures DecimalToUnits(s) == Some(Signum(Negative(Text(s)), magnitude))
  {
    DecimalParts(s);
    UnitsOfNormalParts(Negative(Text(s)), WholeOut(Text(s)), FractionOut(Text(s)), magnitude);
  }

  /** Every decimal is among the stable inputs, so on decimals normalization is idempotent. */
  lemma DecimalsNormalizeOnce(s: string)
    requires IsDecimal(s)
    ensures NormalizeDecimal(Text(NormalizeDecimal(Text(s)))) == NormalizeDecimal(Text(s))
  {
    WholeOutValue(Text(s));
    SixDigits(Fraction(Raw(Text(s))));
    assert IsDigit(WholeOut(Text(s))[0]) && IsDigit(FractionOut(Text(s))[5]);
    assert Stable(Text(s));
    IdempotentExactlyWhen(Text(s));
  }

  lemma DigitsTruncate(w: string, f: string)
    requires AllDigits(w) && AllDigits(f)
    ensures DigitsValue(w) * MILLION + DigitsValue(Six(f)) == Millionths(DigitsValue(w + f), Pow10(|f|))
  {
    SixTruncates(f);
    DigitsAppend(w, f);
    AddWhole(DigitsValue(w), DigitsValue(f), Pow10(|f|), DigitsValue(w + f));
  }

  /** `decimalToUnits` is the decimal's value in millionths, truncated toward zero. */
  lemma UnitsAreTruncated(s: string)
    requires IsDecimal(s)
    ensures DecimalToUnits(s).Some? && TruncatesTo(s, DecimalToUnits(s).value)
  {
    var w, f := Whole(Raw(Text(s))), Fraction(Raw(Text(s)));
    var magnitude := DigitsValue(w) * MILLION + DigitsValue(Six(f));
    DecimalParts(s);
    UnitsOfDigits(s, magnitude);
    DigitsTruncate(w, f);
    NumeralBound(w, |w|);
    NumeralBound(Six(f), 6);
  }

  // ----- round trips -----

  lemma PadStartDigits(d: string)
    requires AllDigits(d) && |d| <= 6
    ensures |PadStart(d)| == 6 && AllDigits(PadStart(d)) && DigitsValue(PadStart(d)) == DigitsValue(d)
  {
    if |d| < 6 {
      ZerosValue(ZEROS[|d|..], 6 - |d|);
      DigitsAppend(ZEROS[|d|..], d);
    }
  }

  lemma PadStartSix(n: nat)
    requires n < MILLION
    ensures var f := PadStart(Digits(n)); |f| == 6 && AllDigits(f) && DigitsValue(f) == n
  {
    Million();
    DigitsLength(n, 6);
    DigitsOf(n);
    PadStartDigits(Digits(n));
  }

  lemma CanonicalTrimmed(negative: bool, w: string, f: string)
    requires w != "" && AllDigits(w) && f != "" && AllDigits(f)
    ensures Trim(Written(negative, w, f)) == Written(negative, w, f)
  {
    var s := Written(negative, w, f);
    assert s[0] == if negative then '-' else w[0];
    assert s[|s| - 1] == f[|f| - 1];
    DigitsTrimmed(s);
  }

  lemma CanonicalParts(negative: bool, w: string, f: string)
    requires w != "" && AllDigits(w) && f != "" && AllDigits(f)
    ensures var s := Text(Written(negative, w, f));
            Negative(s) == negative && Whole(Raw(s)) == w && Fraction(Raw(s)) == f
  {
    CanonicalTrimmed(negative, w, f);
    DigitsNo(w, '.');
    DigitsNo(f, '.');
    var signed := (if negative then "-" else "") + w;
    assert signed[0] == if negative then '-' else w[0];
    assert StripSign(signed) == w;
    RawAround(Written(negative, w, f), signed, f);
  }

  lemma CanonicalIsNormal(negative: bool, w: string, f: string)
    requires w != "" && AllDigits(w) && |f| == 6 && AllDigits(f)
    ensures NormalizeDecimal(Text(Written(negative, w, f))) == Written(negative, w, f)
  {
    CanonicalParts(negative, w, f);
    SixOfSix(f);
  }

  lemma UnitsToDecimalParts(n: int) returns (w: string, f: string)
    ensures UnitsToDecimal(n) == Written(n < 0, w, f)
    ensures w != "" && AllDigits(w) && |f| == 6 && AllDigits(f)
    ensures DigitsValue(w) * MILLION + DigitsValue(f) == Abs(n)
  {
    w, f := Digits(Abs(n) / MILLION), PadStart(Digits(Abs(n) % MILLION));
    PadStartSix(Abs(n) % MILLION);
    DigitsOf(Abs(n) / MILLION);
  }

  lemma {:induction false} DigitsLead(n: nat)
    ensures |Digits(n)| == 1 || Digits(n)[0] != '0'
    decreases n
  {
    if n >= 10 {
      DigitsLead(n / 10);
      if n / 10 < 10 {
        assert Digits(n / 10) == [DigitChar(n / 10)];
      }
    }
  }

  /** Units are written as a dash below zero, a whole part without needless zeros, a point and six digits. */
  lemma UnitsAreWritten(n: int) returns (w: string, f: string)
    ensures UnitsToDecimal(n) == (if n < 0 then "-" else "") + w + "." + f
    ensures AllDigits(w) && |w| > 0 && (|w| == 1 || w[0] != '0')
    ensures AllDigits(f) && |f| == 6
    ensures DigitsValue(w) * 1_000_000 + DigitsValue(f) == Abs(n)
  {
    w, f := Digits(Abs(n) / MILLION), PadStart(Digits(Abs(n) % MILLION));
    PadStartSix(Abs(n) % MILLION);
    DigitsOf(Abs(n) / MILLION);
    DigitsLead(Abs(n) / MILLION);
  }

  /** Formatted units are already normal. */
  lemma UnitsToDecimalIsNormal(n: int)
    ensures NormalizeDecimal(Text(UnitsToDecimal(n))) == UnitsToDecimal(n)
  {
    var w, f := UnitsToDecimalParts(n);
    CanonicalIsNormal(n < 0, w, f);
  }

  /** `decimalToUnits(unitsToDecimal(n)) == n`, also for negative numbers with whole part zero. */
  lemma UnitsRoundTrip(n: int)
    ensures DecimalToUnits(UnitsToDecimal(n)) == Some(n)
  {
    var w, f := UnitsToDecimalParts(n);
    UnitsToDecimalIsNormal(n);
    UnitsOfNormalParts(n < 0, w, f, Abs(n));
    assert DecimalToUnits(UnitsToDecimal(n)) == UnitsOfNormal(UnitsToDecimal(n));
  }

  lemma TruncationIsUnits(s: string, units: int)
    requires IsDecimal(s) && TruncatesTo(s, units)
    ensures DecimalToUnits(s) == Some(units)
  {
    UnitsAreTruncated(s);
  }

  lemma SubtractUnits(left: string, right: string, l: int, r: int)
    requires DecimalToUnits(left) == Some(l) && DecimalToUnits(right) == Some(r)
    ensures SubtractDecimalStrings(left, right) == Some(UnitsToDecimal(l - r))
  {
  }

  /** Subtraction is exact on the operands truncated toward zero at six places. */
  lemma SubtractionIsExact(left: string, right: string, l: int, r: int)
    requires IsDecimal(left) && IsDecimal(right)
    requires TruncatesTo(left, l) && TruncatesTo(right, r)
    ensures SubtractDecimalStrings(left, right) == Some(UnitsToDecimal(l - r))
  {
    TruncationIsUnits(left, l);
    TruncationIsUnits(right, r);
    SubtractUnits(left, right, l, r);
  }
}
