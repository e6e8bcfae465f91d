/**
 * The JavaScript string and number primitives the browser code relies on:
 * `toLowerCase`, `Number.prototype.toString(radix)`, `padStart` and the `%`
 * operator on integers.
 */
module JsText {

  // ---- toLowerCase -------------------------------------------------------

  predicate IsUpperAscii(c: char) {
    'A' <= c <= 'Z'
  }

  /** Case mapping of one character; only ASCII letters are mapped. */
  function LowerChar(c: char): (d: char)
    ensures !IsUpperAscii(d)
    ensures IsUpperAscii(c) ==> d as int == c as int + 32
    ensures !IsUpperAscii(c) ==> d == c
  {
    if IsUpperAscii(c) then (c as int + 32) as char else c
  }

  /** `s.toLowerCase()`, restricted to ASCII case mapping. */
  function ToLowerCase(s: string): (r: string)
    ensures |r| == |s|
    ensures forall i :: 0 <= i < |s| ==> r[i] == LowerChar(s[i])
  {
    seq(|s|, i requires 0 <= i < |s| => LowerChar(s[i]))
  }

  /** Lower-casing twice is lower-casing once, so a lower-cased term matches itself. */
  lemma ToLowerCaseIdempotent(s: string)
    ensures ToLowerCase(ToLowerCase(s)) == ToLowerCase(s)
  {
  }

  // ---- toString(radix) ---------------------------------------------------

  /** The value of a digit character in radix 36 (lower-case letters), or -1. */
  function DigitValue(c: char): (v: int)
    ensures -1 <= v < 36
  {
    if '0' <= c <= '9' then c as int - '0' as int
    else if 'a' <= c <= 'z' then c as int - 'a' as int + 10
    else -1
  }

  predicate IsRadixDigit(c: char, radix: nat) {
    0 <= DigitValue(c) < radix
  }

  predicate AllRadixDigits(s: string, radix: nat) {
    forall i :: 0 <= i < |s| ==> IsRadixDigit(s[i], radix)
  }

  /** The character JavaScript writes for digit `d`. */
  function DigitChar(d: nat): (c: char)
    requires d < 36
    ensures DigitValue(c) == d
  {
    if d < 10 then ('0' as int + d) as char else ('a' as int + d - 10) as char
  }

  /**
   * `n.toString(radix)` for a non-negative integer: the shortest digit string,
   * most significant digit first, lower-case letters above 9.
   */
  function ToRadixString(n: nat, radix: nat): (s: string)
    requires 2 <= radix <= 36
    ensures |s| >= 1
    ensures AllRadixDigits(s, radix)
    ensures s[0] == '0' <==> n == 0
    ensures n == 0 ==> s == "0"
    decreases n
  {
    if n < radix then [DigitChar(n)]
    else
      DivisionStep(n, radix);
      var t := ToRadixString(n / radix, radix);
      var s := t + [DigitChar(n % radix)];
      assert s[0] == t[0];
      assert forall i :: 0 <= i < |t| ==> s[i] == t[i];
      s
  }

  /** Dividing by the radix strips one digit: the quotient is positive and smaller. */
  lemma DivisionStep(n: nat, radix: nat)
    requires 2 <= radix <= n
    ensures 1 <= n / radix < n
    ensures n == (n / radix) * radix + n % radix && 0 <= n % radix < radix
  {
  }

  /** The number a digit string denotes in `radix` (the inverse reading). */
  function RadixValue(s: string, radix: nat): nat
    requires 2 <= radix <= 36
    requires AllRadixDigits(s, radix)
  {
    if s == [] then 0
    else RadixValue(s[..|s| - 1], radix) * radix + DigitValue(s[|s| - 1])
  }

  /** Reading back what `toString(radix)` wrote gives the number. */
  lemma {:induction false} RadixRoundTrip(n: nat, radix: nat)
    requires 2 <= radix <= 36
    ensures RadixValue(ToRadixString(n, radix), radix) == n
    decreases n
  {
    var s := ToRadixString(n, radix);
    if n >= radix {
      DivisionStep(n, radix);
      var t := ToRadixString(n / radix, radix);
      RadixRoundTrip(n / radix, radix);
      assert s == t + [DigitChar(n % radix)];
      assert s[..|s| - 1] == t;
      assert DigitValue(s[|s| - 1]) == n % radix;
      assert RadixValue(s, radix) == RadixValue(t, radix) * radix + n % radix;
    }
  }

  function Pow(b: nat, k: nat): (p: nat)
    ensures b > 0 ==> p > 0
  {
    if k == 0 then 1 else b * Pow(b, k - 1)
  }

  /** Below `radix * p`, the quotient by `radix` is below `p`. */
  lemma QuotientBelow(n: nat, radix: nat, p: nat)
    requires radix >= 1 && n < radix * p
    ensures n / radix < p
  {
    assert (n / radix) * radix <= n;
  }

  /** A number below `radix^k` takes at most `k` digits. */
  lemma {:induction false} RadixStringLength(n: nat, radix: nat, k: nat)
    requires 2 <= radix <= 36
    requires 1 <= k && n < Pow(radix, k)
    ensures |ToRadixString(n, radix)| <= k
    decreases k
  {
    if n >= radix {
      assert k > 1;
      var p := Pow(radix, k - 1);
      assert Pow(radix, k) == radix * p;
      QuotientBelow(n, radix, p);
      RadixStringLength(n / radix, radix, k - 1);
    }
  }

  /** Leading zeros do not change the value of a digit string. */
  lemma {:induction false} LeadingZerosIgnored(zeros: string, s: string, radix: nat)
    requires 2 <= radix <= 36
    requires forall i :: 0 <= i < |zeros| ==> zeros[i] == '0'
    requires AllRadixDigits(s, radix)
    ensures AllRadixDigits(zeros + s, radix)
    ensures RadixValue(zeros + s, radix) == RadixValue(s, radix)
    decreases |zeros| + |s|
  {
    assert AllRadixDigits(zeros + s, radix) by {
      forall i | 0 <= i < |zeros + s| ensures IsRadixDigit((zeros + s)[i], radix) {
        if i >= |zeros| {
          assert (zeros + s)[i] == s[i - |zeros|];
        }
      }
    }
    if s == [] {
      if zeros != [] {
        assert zeros + s == zeros;
        LeadingZerosIgnored(zeros[..|zeros| - 1], [], radix);
        assert zeros[..|zeros| - 1] + [] == zeros[..|zeros| - 1];
      }
    } else {
      LeadingZerosIgnored(zeros, s[..|s| - 1], radix);
      assert (zeros + s)[..|zeros + s| - 1] == zeros + s[..|s| - 1];
    }
  }

  // ---- padStart ----------------------------------------------------------

  /** `s.padStart(targetLength, fill)` with a one-character pad string. */
  function PadStart(s: string, targetLength: nat, fill: char): (r: string)
    ensures |r| == if |s| >= targetLength then |s| else targetLength
    ensures r[|r| - |s|..] == s
    ensures forall i :: 0 <= i < |r| - |s| ==> r[i] == fill
  {
    if |s| >= targetLength then s else seq(targetLength - |s|, _ => fill) + s
  }

  // ---- integer `%` -------------------------------------------------------

  /**
   * `a % b` on integral JavaScript numbers: the quotient is truncated toward
   * zero, so the remainder takes the sign of the dividend (unlike Dafny's `%`).
   */
  function JsRem(a: int, b: int): (r: int)
    requires b > 0
    ensures a >= 0 ==> 0 <= r < b
    ensures a < 0 ==> -b < r <= 0
    ensures a >= 0 ==> r == a % b
    ensures (a - r) % b == 0
  {
    if a >= 0 then
      var r := a % b;
      MultipleRemainder(b, a / b);
      assert a - r == (a / b) * b;
      r
    else
      var r := -((-a) % b);
      MultipleRemainder(b, -((-a) / b));
      assert a - r == -((-a) / b) * b;
      r
  }

  /** A whole number of `b`s in [0, b) is no `b` at all. */
  lemma MultipleInRange(b: int, t: int)
    requires b > 0 && 0 <= b * t < b
    ensures t == 0
  {
  }

  /** A multiple of `b` leaves no remainder. */
  lemma MultipleRemainder(b: int, k: int)
    requires b > 0
    ensures (k * b) % b == 0
  {
    var x := k * b;
    var t := x / b;
    assert x == t * b + x % b;
    assert x % b == b * (k - t);
    MultipleInRange(b, k - t);
  }

  // ---- Number.prototype.toString() ----------------------------------------

  /** `n.toString()` for an integer: optional minus sign, then decimal digits. */
  function NumberToString(n: int): (s: string)
    ensures |s| >= 1
    ensures n >= 0 ==> AllRadixDigits(s, 10) && RadixValue(s, 10) == n
    ensures n >= 0 ==> (s[0] == '0' <==> n == 0)
    ensures n == 0 ==> s == "0"
    ensures n < 0 ==> |s| >= 2 && s[1] != '0'
    ensures n < 0 ==> s[0] == '-' && AllRadixDigits(s[1..], 10) && RadixValue(s[1..], 10) == -n
  {
    var digits := ToRadixString(if n < 0 then -n else n, 10);
    RadixRoundTrip(if n < 0 then -n else n, 10);
    if n < 0 then
      assert ("-" + digits)[1..] == digits;
      "-" + digits
    else digits
  }
}
