/** Hexadecimal text, as the C client writes and reads it (hex_encode and hex_decode of
    clients/c/cib_aes.c). */
module Hex {
  import opened Bytes
  import opened Digits

  predicate Pair(hi: char, lo: char, b: byte) {
    match (Value(hi), Value(lo))
    case (Some(h), Some(l)) => b == h * 16 + l
    case _ => false
  }

  /** Text and bytes correspond: two digits of either case to a byte, high half first. */
  predicate Spells(text: string, bytes: seq<byte>) {
    && |text| == 2 * |bytes|
    && forall i | 0 <= i < |bytes| :: Pair(text[2 * i], text[2 * i + 1], bytes[i])
  }

  function Digit(bytes: seq<byte>, k: nat): char
    requires k < 2 * |bytes|
  {
    DIGITS[if k % 2 == 0 then bytes[k / 2] / 16 else bytes[k / 2] % 16]
  }

  /** The lower-case text of some bytes. */
  function Text(bytes: seq<byte>): (text: string)
    ensures |text| == 2 * |bytes|
  {
    seq(2 * |bytes|, k requires 0 <= k < 2 * |bytes| => Digit(bytes, k))
  }

  lemma TextSpells(bytes: seq<byte>)
    ensures Spells(Text(bytes), bytes)
  {
    forall i | 0 <= i < |bytes|
      ensures Pair(Text(bytes)[2 * i], Text(bytes)[2 * i + 1], bytes[i])
    {
      var hi, lo := bytes[i] / 16, bytes[i] % 16;
      ValueOfDigit(hi);
      ValueOfDigit(lo);
      assert Text(bytes)[2 * i] == DIGITS[hi] && Text(bytes)[2 * i + 1] == DIGITS[lo];
    }
  }

  /** hex_encode. */
  method Encode(bytes: array<byte>) returns (text: array<char>)
    ensures fresh(text) && text[..] == Text(bytes[..])
  {
    text := new char[2 * bytes.Length](_ => '0');
    for i := 0 to bytes.Length
      invariant forall k | 0 <= k < 2 * i :: text[k] == Digit(bytes[..], k)
    {
      text[2 * i] := DIGITS[bytes[i] / 16];
      text[2 * i + 1] := DIGITS[bytes[i] % 16];
    }
  }

  /** The octets of ASCII text. */
  function Octets(text: string): (s: seq<byte>)
    ensures |s| == |text|
  {
    seq(|text|, i requires 0 <= i < |text| => text[i] as int % 256)
  }

  lemma TextIsAscii(bytes: seq<byte>, k: nat)
    requires k < 2 * |bytes|
    ensures Text(bytes)[k] as int < 128 && Text(bytes)[k] != '\n'
  {
    DigitsAreAscii(if k % 2 == 0 then bytes[k / 2] / 16 else bytes[k / 2] % 16);
  }

  /** Distinct byte strings have distinct texts, and a text is one line. */
  lemma TextInjective(a: seq<byte>, b: seq<byte>)
    ensures Octets(Text(a)) == Octets(Text(b)) ==> a == b
    ensures NL !in Octets(Text(a))
  {
    var s, t := Text(a), Text(b);
    hide Digit, Text, Spells;
    forall k | 0 <= k < |s| ensures s[k] as int < 128 && s[k] != '\n' {
      TextIsAscii(a, k);
    }
    forall k | 0 <= k < |t| ensures t[k] as int < 128 {
      TextIsAscii(b, k);
    }
    if Octets(s) == Octets(t) {
      forall k | 0 <= k < |s| ensures s[k] == t[k] {
        assert Octets(s)[k] == Octets(t)[k];
      }
      assert s == t;
      TextSpells(a);
      TextSpells(b);
      SpellingIsExact(s, a, b);
    }
  }

  /** hex_decode: None stands for -1. */
  method Decode(text: string, cap: nat) returns (r: Option<seq<byte>>)
    ensures r.Some? ==> Spells(text, r.value) && |r.value| <= cap
    ensures r.None? ==> |text| / 2 > cap || !exists bytes :: Spells(text, bytes)
  {
    if |text| % 2 != 0 || |text| / 2 > cap {
      return None;
    }
    var out: seq<byte> := [];
    for i := 0 to |text| / 2
      invariant |out| == i && Spells(text[..2 * i], out)
    {
      var hi, lo := Value(text[2 * i]), Value(text[2 * i + 1]);
      if hi.None? || lo.None? {
        forall bytes
          ensures !Spells(text, bytes)
        {
          NotSpelled(text, bytes, i);
        }
        return None;
      }
      hide Spells;
      ValueIsSmall(text[2 * i]);
      ValueIsSmall(text[2 * i + 1]);
      hide Value;
      var b: byte := hi.value * 16 + lo.value;
      SpellsSnoc(text[..2 * i], out, text[2 * i], text[2 * i + 1], b);
      assert text[..2 * (i + 1)] == text[..2 * i] + [text[2 * i], text[2 * i + 1]];
      out := out + [b];
    }
    assert text[..2 * (|text| / 2)] == text;
    r := Some(out);
  }

  lemma SpellsSnoc(text: string, bytes: seq<byte>, hi: char, lo: char, b: byte)
    requires Spells(text, bytes) && Pair(hi, lo, b)
    ensures Spells(text + [hi, lo], bytes + [b])
  {
    hide Pair;
    var t, bs := text + [hi, lo], bytes + [b];
    forall i | 0 <= i < |bs|
      ensures Pair(t[2 * i], t[2 * i + 1], bs[i])
    {
      if i < |bytes| {
        assert t[2 * i] == text[2 * i] && t[2 * i + 1] == text[2 * i + 1];
      }
    }
  }

  lemma NotSpelled(text: string, bytes: seq<byte>, i: nat)
    requires 2 * i + 1 < |text| && (Value(text[2 * i]).None? || Value(text[2 * i + 1]).None?)
    ensures !Spells(text, bytes)
  {
    assert i < |bytes| ==> !Pair(text[2 * i], text[2 * i + 1], bytes[i]);
  }

  /** A text spells at most one byte string, so decoding what was encoded gives it back. */
  lemma SpellingIsExact(text: string, a: seq<byte>, b: seq<byte>)
    requires Spells(text, a) && Spells(text, b)
    ensures a == b
  {
    forall i | 0 <= i < |a|
      ensures a[i] == b[i]
    {
    }
  }

  /** Whatever the decoder may return for an encoded text of room enough, it is the bytes. */
  lemma DecodeInvertsEncode(bytes: seq<byte>, r: Option<seq<byte>>)
    requires r.Some? ==> Spells(Text(bytes), r.value)
    requires r.None? ==> !exists b :: Spells(Text(bytes), b)
    ensures r == Some(bytes)
  {
    TextSpells(bytes);
    if r.Some? {
      SpellingIsExact(Text(bytes), bytes, r.value);
    }
  }
}
