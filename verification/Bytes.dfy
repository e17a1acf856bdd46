/** Octets, big-endian integers and decimal printing, shared by the wire formats. */
module Bytes {

  type byte = x: int | 0 <= x < 256

  type Bytes = seq<byte>

  const NL: byte := 10

  datatype Option<+T> = None | Some(value: T)

  // ----- big-endian integers ------------------------------------------------

  function BE16(n: nat): (s: Bytes)
    requires n < 0x1_0000
    ensures |s| == 2 && s[0] as int * 256 + s[1] as int == n
    ensures U16(s[0], s[1]) == n
  {
    [n / 256, n % 256]
  }

  function U16(hi: byte, lo: byte): (n: nat)
    ensures n < 0x1_0000
  {
    hi * 256 + lo
  }

  /** The w low-order bytes of n, most significant first. */
  function BigEndian(w: nat, n: nat): (s: Bytes)
    ensures |s| == w
    decreases w
  {
    if w == 0 then [] else BigEndian(w - 1, n / 256) + [n % 256]
  }

  function Pow256(w: nat): (p: nat)
    ensures p > 0
  {
    if w == 0 then 1 else 256 * Pow256(w - 1)
  }

  lemma {:induction false} BigEndianInjective(w: nat, m: nat, n: nat)
    requires m < Pow256(w) && n < Pow256(w)
    requires BigEndian(w, m) == BigEndian(w, n)
    ensures m == n
    decreases w
  {
    if w > 0 {
      var s, t := BigEndian(w, m), BigEndian(w, n);
      assert s[w - 1] == m % 256 && t[w - 1] == n % 256;
      assert s[..w - 1] == BigEndian(w - 1, m / 256) && t[..w - 1] == BigEndian(w - 1, n / 256);
      BigEndianInjective(w - 1, m / 256, n / 256);
    }
  }

  // ----- decimal printing ---------------------------------------------------

  /** What strconv.FormatUint(n, 10) and printf("%u") print. */
  function Decimal(n: nat): (s: Bytes)
    ensures |s| > 0
    ensures forall i :: 0 <= i < |s| ==> 48 <= s[i] <= 57
  {
    if n < 10 then [48 + n] else Decimal(n / 10) + [48 + n % 10]
  }

  /** The value of a string of digits, most significant first. */
  function NumberOf(s: Bytes): int {
    if s == [] then 0 else 10 * NumberOf(s[..|s| - 1]) + s[|s| - 1] as int - 48
  }

  /** A number in decimal: digits with this value, and no zero in front of another digit. */
  predicate IsNumeral(s: Bytes, n: nat) {
    && |s| > 0 && (forall i | 0 <= i < |s| :: 48 <= s[i] <= 57)
    && NumberOf(s) == n && (|s| > 1 ==> s[0] != 48)
  }

  /** What is printed reads as the number. */
  lemma {:induction false} DecimalIsNumeral(n: nat)
    ensures IsNumeral(Decimal(n), n)
  {
    var s := Decimal(n);
    if n < 10 {
      assert s[..0] == [];
    } else {
      DecimalIsNumeral(n / 10);
      assert s[..|s| - 1] == Decimal(n / 10) && s[|s| - 1] == 48 + n % 10;
      if |Decimal(n / 10)| == 1 {
        assert Decimal(n / 10) == [48 + n / 10];
      }
    }
  }

  lemma {:induction false} NumberOfIsPositive(s: Bytes)
    requires |s| > 0 && (forall i | 0 <= i < |s| :: 48 <= s[i] <= 57) && s[0] != 48
    ensures NumberOf(s) > 0
  {
    if |s| == 1 {
      assert s[..0] == [];
    } else {
      NumberOfIsPositive(s[..|s| - 1]);
    }
  }

  /** And nothing else reads as it. */
  lemma {:induction false} NumeralIsDecimal(s: Bytes, n: nat)
    requires IsNumeral(s, n)
    ensures s == Decimal(n)
    decreases |s|
  {
    var front, last := s[..|s| - 1], s[|s| - 1] as int - 48;
    if front == [] {
      assert NumberOf(s) == 10 * NumberOf([]) + last == n;
      assert s == [s[0]] == [48 + n];
    } else {
      NumberOfIsPositive(front);
      assert n / 10 == NumberOf(front) && n % 10 == last;
      NumeralIsDecimal(front, n / 10);
      assert s == front + [48 + last];
    }
  }

  lemma {:induction false} DecimalInjective(m: nat, n: nat)
    requires Decimal(m) == Decimal(n)
    ensures m == n
    decreases m
  {
    var s, t := Decimal(m), Decimal(n);
    assert s[|s| - 1] == 48 + m % 10;
    assert t[|t| - 1] == 48 + n % 10;
    assert m >= 10 ==> |s| > 1;
    assert n >= 10 ==> |t| > 1;
    if m >= 10 {
      assert s[..|s| - 1] == Decimal(m / 10);
      assert t[..|t| - 1] == Decimal(n / 10);
      DecimalInjective(m / 10, n / 10);
    }
  }

  // ----- splitting at a separator -------------------------------------------

  /** The first separator decides where a separator-free head ends. */
  lemma SplitFirst<T>(sep: T, a: seq<T>, x: seq<T>, b: seq<T>, y: seq<T>)
    requires sep !in a && sep !in b
    requires a + [sep] + x == b + [sep] + y
    ensures a == b && x == y
  {
    var s := a + [sep] + x;
    assert s[|a|] == sep && s[|b|] == sep;
    assert s[..|a|] == a && s[..|b|] == b;
    assert forall i | 0 <= i < |a| :: s[i] != sep;
    assert forall i | 0 <= i < |b| :: s[i] != sep;
    assert s[|a| + 1..] == x && s[|b| + 1..] == y;
  }

  /** The last separator decides where a separator-free tail begins. */
  lemma SplitLast<T>(sep: T, x: seq<T>, a: seq<T>, y: seq<T>, b: seq<T>)
    requires sep !in a && sep !in b
    requires x + [sep] + a == y + [sep] + b
    ensures x == y && a == b
  {
    var s := x + [sep] + a;
    assert s[|x|] == sep && s[|y|] == sep;
    assert s[|x| + 1..] == a && s[|y| + 1..] == b;
    assert forall i | |x| < i < |s| :: s[i] == a[i - |x| - 1];
    assert forall i | |y| < i < |s| :: s[i] == b[i - |y| - 1];
    assert s[..|x|] == x && s[..|y|] == y;
  }
}
