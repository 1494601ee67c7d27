/** What the modules read out of strings: digits, and the pieces between separators. */
module Texts {
  predicate IsDigit(c: char) {
    '0' <= c <= '9'
  }

  predicate AllDigits(s: string) {
    forall i :: 0 <= i < |s| ==> IsDigit(s[i])
  }

  function DigitsValue(s: string): nat
    requires AllDigits(s)
  {
    if s == "" then 0
    else DigitsValue(s[..|s| - 1]) * 10 + (s[|s| - 1] as int - '0' as int)
  }

  /** `s.split(sep)`: always at least one piece, possibly empty. */
  function Split(s: string, sep: char): (pieces: seq<string>)
    ensures |pieces| >= 1
  {
    if s == "" then [""]
    else
      var rest := Split(s[1..], sep);
      if s[0] == sep then [""] + rest else [[s[0]] + rest[0]] + rest[1..]
  }

  /** `String(n)`. */
  function DecimalText(n: nat): (s: string)
    ensures AllDigits(s) && s != ""
    ensures DigitsValue(s) == n
  {
    if n < 10 then [(n + 48) as char]
    else
      var front := DecimalText(n / 10);
      var s := front + [(n % 10 + 48) as char];
      assert s[..|s| - 1] == front;
      s
  }
}
