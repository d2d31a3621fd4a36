/** The string operations the pages and forms use: lower-casing (ASCII letters
    only), `includes`, and `Number(value)` on the text of a numeric input. */
module Text {

  predicate IsUpper(c: char) {
    'A' <= c <= 'Z'
  }

  /** Lower-cases an ASCII capital; every other character is left alone. */
  function LowerChar(c: char): (d: char)
    ensures !IsUpper(d)
    ensures IsUpper(c) ==> 'a' <= d <= 'z' && d as int - c as int == 'a' as int - 'A' as int
    ensures !IsUpper(c) ==> d == c
  {
    if IsUpper(c) then (c as int - 'A' as int + 'a' as int) as char else c
  }

  /** `toLowerCase`, character by character. */
  function Lower(s: string): (t: string)
    ensures |t| == |s|
    ensures forall i :: 0 <= i < |s| ==> t[i] == LowerChar(s[i])
  {
    if s == [] then [] else [LowerChar(s[0])] + Lower(s[1..])
  }

  /** Lower-casing twice is lower-casing once. */
  lemma LowerIdempotent(s: string)
    ensures Lower(Lower(s)) == Lower(s)
  {
  }

  /** `s` begins with `t`. */
  predicate StartsWith(s: string, t: string) {
    |t| <= |s| && s[..|t|] == t
  }

  /** `s.includes(t)`: try every start position from the left. */
  predicate Contains(s: string, t: string)
    decreases |s|
  {
    StartsWith(s, t) || (s != [] && Contains(s[1..], t))
  }

  /** Reference reading of `includes`: `t` is the block of `s` starting at `i`. */
  ghost predicate OccursAt(s: string, t: string, i: int) {
    0 <= i && i + |t| <= |s| && s[i..i + |t|] == t
  }

  /** The search finds `t` exactly when `t` occurs somewhere in `s`. */
  lemma {:induction false} ContainsIffOccurs(s: string, t: string)
    ensures Contains(s, t) <==> exists i :: OccursAt(s, t, i)
    decreases |s|
  {
    if Contains(s, t) {
      if StartsWith(s, t) {
        assert OccursAt(s, t, 0);
      } else {
        ContainsIffOccurs(s[1..], t);
        var i :| OccursAt(s[1..], t, i);
        assert s[1..][i..i + |t|] == s[i + 1..i + 1 + |t|];
        assert OccursAt(s, t, i + 1);
      }
    }
    if exists i :: OccursAt(s, t, i) {
      var i :| OccursAt(s, t, i);
      if i > 0 {
        assert s[1..][i - 1..i - 1 + |t|] == s[i..i + |t|];
        assert OccursAt(s[1..], t, i - 1);
        ContainsIffOccurs(s[1..], t);
      } else {
        assert StartsWith(s, t);
      }
    }
  }

  /** Lower-casing both sides keeps an occurrence an occurrence. */
  lemma {:induction false} LowerPreservesContains(s: string, t: string)
    requires Contains(s, t)
    ensures Contains(Lower(s), Lower(t))
  {
    ContainsIffOccurs(s, t);
    var i :| OccursAt(s, t, i);
    assert Lower(s)[i..i + |t|] == Lower(t) by {
      forall k | 0 <= k < |t|
        ensures Lower(s)[i..i + |t|][k] == Lower(t)[k]
      {
        assert s[i..i + |t|][k] == t[k];
      }
    }
    assert OccursAt(Lower(s), Lower(t), i);
    ContainsIffOccurs(Lower(s), Lower(t));
  }

  /** An occurrence at a known offset is found whatever the case of either side. */
  lemma FoundAt(s: string, t: string, i: int)
    requires OccursAt(s, t, i)
    ensures Contains(Lower(s), Lower(t))
  {
    ContainsIffOccurs(s, t);
    LowerPreservesContains(s, t);
  }

  /** A character of `t` that `s` lacks rules out `t` occurring in `s`. */
  lemma {:induction false} MissingCharRulesOut(s: string, t: string, k: int)
    requires 0 <= k < |t| && t[k] !in s
    ensures !Contains(s, t)
  {
    ContainsIffOccurs(s, t);
  }

  /** A lower-case letter absent from `s` in both cases is absent from `Lower(s)`. */
  lemma LowerLacks(s: string, c: char)
    requires 'a' <= c <= 'z' && c !in s && (c as int - 'a' as int + 'A' as int) as char !in s
    ensures c !in Lower(s)
  {
  }

  /** Every string includes the empty string, which is its own lower case. */
  lemma ContainsEmpty()
    ensures Lower("") == ""
    ensures forall s: string :: Contains(s, "")
  {
  }

  predicate IsDigit(c: char) {
    '0' <= c <= '9'
  }

  predicate AllDigits(s: string) {
    forall i :: 0 <= i < |s| ==> IsDigit(s[i])
  }

  /** The value of a run of decimal digits, most significant first. */
  function DigitsValue(s: string): nat
    requires AllDigits(s)
  {
    if s == [] then 0 else DigitsValue(s[..|s| - 1]) * 10 + (s[|s| - 1] as int - '0' as int)
  }

  function DigitChar(d: nat): (c: char)
    requires d < 10
    ensures IsDigit(c) && c as int - '0' as int == d
  {
    ('0' as int + d) as char
  }

  /** The shortest decimal spelling of `n`. */
  function DecimalString(n: nat): (s: string)
    ensures |s| > 0 && AllDigits(s)
  {
    if n < 10 then [DigitChar(n)] else DecimalString(n / 10) + [DigitChar(n % 10)]
  }

  /** `Number(value)` on what a numeric input produces: the empty string reads as
      0, an optional '-' followed by decimal digits as that integer. */
  function ToNumber(s: string): int {
    if s == [] then 0
    else if s[0] == '-' && |s| > 1 && AllDigits(s[1..]) then -(DigitsValue(s[1..]) as int)
    else if AllDigits(s) then DigitsValue(s)
    else 0
  }

  lemma {:induction false} DigitsValueOfDecimal(n: nat)
    ensures DigitsValue(DecimalString(n)) == n
  {
    if n >= 10 {
      var s := DecimalString(n);
      assert s[..|s| - 1] == DecimalString(n / 10);
      DigitsValueOfDecimal(n / 10);
    }
  }

  /** Reading back a decimal spelling, signed or not, gives the number. */
  lemma ToNumberOfDecimal(n: nat)
    ensures ToNumber(DecimalString(n)) == n
    ensures ToNumber("-" + DecimalString(n)) == -(n as int)
  {
    DigitsValueOfDecimal(n);
    var s := DecimalString(n);
    assert ("-" + s)[1..] == s;
  }

  /** Leading zeros do not change the value read. */
  lemma {:induction false} LeadingZeroIgnored(s: string)
    requires AllDigits(s)
    ensures AllDigits("0" + s) && DigitsValue("0" + s) == DigitsValue(s)
    decreases |s|
  {
    var z := "0" + s;
    assert AllDigits(z) by {
      assert forall i :: 0 < i < |z| ==> z[i] == s[i - 1];
    }
    if s != [] {
      assert z[..|z| - 1] == "0" + s[..|s| - 1];
      LeadingZeroIgnored(s[..|s| - 1]);
    }
  }
}
