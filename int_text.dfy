/**
 * Decimal text of integers, as the bot uses it: `str(chat_id)` and
 * `str(user_id)` build the roster's keys, `int(uid)` reads a user id back
 * when mentions are built, and `str.format` prints page numbers.
 */
module IntText {
  import opened Wrappers

  predicate IsDigit(c: char) {
    '0' <= c <= '9'
  }

  function DigitChar(d: nat): (c: char)
    requires d < 10
    ensures IsDigit(c)
  {
    ('0' as int + d) as char
  }

  function DigitValue(c: char): (d: nat)
    requires IsDigit(c)
    ensures d < 10
  {
    c as int - '0' as int
  }

  predicate AllDigits(s: string) {
    |s| > 0 && forall i :: 0 <= i < |s| ==> IsDigit(s[i])
  }

  /** The digits of `n`, most significant first, with no leading zero. */
  function NatDigits(n: nat): (r: string)
    ensures AllDigits(r)
    ensures n > 0 ==> r[0] != '0'
    decreases n
  {
    if n < 10 then [DigitChar(n)] else NatDigits(n / 10) + [DigitChar(n % 10)]
  }

  /** Python's `str(n)` for an `int`: a minus sign for negative numbers, then the digits. */
  function Str(n: int): (r: string)
    ensures |r| > 0
    ensures (r[0] == '-') == (n < 0)
    ensures forall i :: (if n < 0 then 1 else 0) <= i < |r| ==> IsDigit(r[i])
    ensures n < 0 ==> |r| > 1 && r[1] != '0'
    ensures n > 0 ==> r[0] != '0'
  {
    if n < 0 then "-" + NatDigits(-n) else NatDigits(n)
  }

  /** The value of a run of digits read most significant first. */
  function DigitsValue(s: string): nat
    requires forall i :: 0 <= i < |s| ==> IsDigit(s[i])
  {
    if s == [] then 0 else DigitsValue(s[..|s| - 1]) * 10 + DigitValue(s[|s| - 1])
  }

  /**
   * The sign-and-ASCII-digits subset of Python's `int(s)` on a string: an
   * optional sign and then one or more of `0`-`9`. Any other text is
   * `None`, standing for `ValueError`.
   */
  function ParseInt(s: string): (r: Option<int>)
    ensures r.Some? ==> |s| > 0 && IsDigit(s[|s| - 1])
  {
    if |s| > 0 && (s[0] == '-' || s[0] == '+') then
      if AllDigits(s[1..]) then
        var magnitude: int := DigitsValue(s[1..]);
        Some(if s[0] == '-' then -magnitude else magnitude)
      else None
    else if AllDigits(s) then Some(DigitsValue(s))
    else None
  }

  /** A key is canonical when it is `str` of the integer it parses to. */
  predicate IsCanonical(s: string) {
    ParseInt(s).Some? && Str(ParseInt(s).value) == s
  }

  lemma {:induction false} DigitsValueOfNatDigits(n: nat)
    ensures DigitsValue(NatDigits(n)) == n
    decreases n
  {
    if n >= 10 {
      var s := NatDigits(n);
      assert s[..|s| - 1] == NatDigits(n / 10);
      DigitsValueOfNatDigits(n / 10);
    }
  }

  /** `int(str(n)) == n`: the id read back from a roster key is the id that was stored. */
  lemma ParseStr(n: int)
    ensures ParseInt(Str(n)) == Some(n)
  {
    if n < 0 {
      assert Str(n)[1..] == NatDigits(-n);
      DigitsValueOfNatDigits(-n);
    } else {
      DigitsValueOfNatDigits(n);
    }
  }

  /** Distinct ids give distinct keys. */
  lemma StrInjective(a: int, b: int)
    ensures Str(a) == Str(b) <==> a == b
  {
    ParseStr(a);
    ParseStr(b);
  }

  lemma StrIsCanonical(n: int)
    ensures IsCanonical(Str(n))
  {
    ParseStr(n);
  }
}
