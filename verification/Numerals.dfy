/** Numbers written in decimal, and text without its surrounding blanks. */
module Numerals {
  predicate IsDigit(c: char) {
    '0' <= c <= '9'
  }

  predicate AllDigits(s: string) {
    forall i | 0 <= i < |s| :: IsDigit(s[i])
  }

  function Value(s: string): nat
    requires AllDigits(s)
  {
    if s == "" then 0 else 10 * Value(s[..|s| - 1]) + (s[|s| - 1] as int - '0' as int)
  }

  function Decimal(n: nat): (s: string)
    ensures s != "" && AllDigits(s) && Value(s) == n
  {
    var last := [('0' as int + n % 10) as char];
    if n < 10 then last else Decimal(n / 10) + last
  }

  predicate IsBlank(c: char) {
    c == ' ' || '\t' <= c <= '\r'
  }

  /** Without the blanks at either end. */
  function Trim(s: string): string {
    if s != "" && IsBlank(s[0]) then Trim(s[1..])
    else if s != "" && IsBlank(s[|s| - 1]) then Trim(s[..|s| - 1])
    else s
  }

  predicate Trimmed(s: string) {
    s == "" || (!IsBlank(s[0]) && !IsBlank(s[|s| - 1]))
  }

  lemma {:induction false} TrimmedIsItself(s: string)
    requires Trimmed(s)
    ensures Trim(s) == s
  {
  }

  lemma {:induction false} TrimIsTrimmed(s: string)
    ensures Trimmed(Trim(s))
  {
    if s != "" && IsBlank(s[0]) {
      TrimIsTrimmed(s[1..]);
    } else if s != "" && IsBlank(s[|s| - 1]) {
      TrimIsTrimmed(s[..|s| - 1]);
    }
  }

  /** What is cut off is blank, and nothing else is. */
  lemma {:induction false} TrimExactly(s: string) returns (i: nat, j: nat)
    ensures i <= j <= |s| && Trim(s) == s[i..j]
    ensures forall k | 0 <= k < i || j <= k < |s| :: s[k] == ' ' || '\t' <= s[k] <= '\r'
    ensures i < j ==> !(s[i] == ' ' || '\t' <= s[i] <= '\r') && !(s[j - 1] == ' ' || '\t' <= s[j - 1] <= '\r')
  {
    if s != "" && IsBlank(s[0]) {
      var rest := s[1..];
      var a, b := TrimExactly(rest);
      i, j := a + 1, b + 1;
      assert forall k | 0 <= k < |rest| :: rest[k] == s[k + 1];
      assert rest[a..b] == s[i..j];
      forall k | 0 <= k < i || j <= k < |s| ensures s[k] == ' ' || '\t' <= s[k] <= '\r' {
        if k > 0 { assert rest[k - 1] == s[k]; }
      }
    } else if s != "" && IsBlank(s[|s| - 1]) {
      var rest := s[..|s| - 1];
      i, j := TrimExactly(rest);
      assert rest[i..j] == s[i..j];
      forall k | 0 <= k < i || j <= k < |s| ensures s[k] == ' ' || '\t' <= s[k] <= '\r' {
        if k < |rest| { assert rest[k] == s[k]; }
      }
    } else {
      i, j := 0, |s|;
    }
  }

  /** Numbers are written to base ten, without leading zeros. */
  lemma {:induction false} DecimalIsPlain(n: nat)
    ensures Decimal(10) == "10" && (n > 0 ==> Decimal(n)[0] != '0')
  {
    assert Decimal(1) == "1";
    if n >= 10 { DecimalIsPlain(n / 10); }
  }
}
