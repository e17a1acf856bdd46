/** Hexadecimal digits. */
module Digits {
  import opened Bytes

  const DIGITS: string := "0123456789abcdef"

  function Value(c: char): Option<nat> {
    if '0' <= c <= '9' then Some(c as int - '0' as int)
    else if 'a' <= c <= 'f' then Some(c as int - 'a' as int + 10)
    else if 'A' <= c <= 'F' then Some(c as int - 'A' as int + 10)
    else None
  }

  lemma ValueOfDigit(d: nat)
    requires d < 16
    ensures Value(DIGITS[d]) == Some(d)
  {
    if d < 10 {
      assert DIGITS[d] == ['0', '1', '2', '3', '4', '5', '6', '7', '8', '9'][d];
    } else {
      assert DIGITS[d] == ['a', 'b', 'c', 'd', 'e', 'f'][d - 10];
    }
  }

  lemma ValueIsSmall(c: char)
    ensures Value(c).Some? ==> Value(c).value < 16
  {
  }

  lemma DigitsAreAscii(d: nat)
    requires d < 16
    ensures DIGITS[d] as int < 128 && DIGITS[d] != '\n'
  {
  }

  /** Both cases are read, and nothing else. */
  lemma ValueReads(c: char, n: nat)
    requires n < 16
    ensures Value(c) == Some(n) <==> c == "0123456789abcdef"[n] || c == "0123456789ABCDEF"[n]
  {
    var lower := ['0', '1', '2', '3', '4', '5', '6', '7', '8', '9', 'a', 'b', 'c', 'd', 'e', 'f'];
    var upper := ['0', '1', '2', '3', '4', '5', '6', '7', '8', '9', 'A', 'B', 'C', 'D', 'E', 'F'];
    assert "0123456789abcdef" == lower && "0123456789ABCDEF" == upper;
  }
}
