/** The inline JSON string printer of internal/auth/middleware.go, against a decoder for section 7
    of RFC 8259. */
module JsonText {
  import opened Bytes
  import Digits

  // ----- printing -----------------------------------------------------------

  function Escape(c: char): string {
    if c == '"' then "\\\""
    else if c == '\\' then "\\\\"
    else if c == '\n' then "\\n"
    else if c == '\r' then "\\r"
    else if c == '\t' then "\\t"
    else if c as int < 0x20 then "\\u00" + [Digits.DIGITS[c as int / 16], Digits.DIGITS[c as int % 16]]
    else [c]
  }

  function Escaped(s: string): string {
    if s == "" then "" else Escape(s[0]) + Escaped(s[1..])
  }

  function Quoted(s: string): string {
    "\"" + Escaped(s) + "\""
  }

  lemma {:induction false} EscapedSnoc(s: string, c: char)
    ensures Escaped(s + [c]) == Escaped(s) + Escape(c)
  {
    if s == "" {
      assert [c][1..] == "";
      assert Escape(c) + "" == Escape(c);
    } else {
      assert (s + [c])[1..] == s[1..] + [c];
      EscapedSnoc(s[1..], c);
    }
  }

  ghost predicate Printed(b: string, s: string) {
    b == "\"" + Escaped(s)
  }

  lemma PrintedSnoc(was: string, s: string, c: char, b: string)
    requires Printed(was, s) && b == was + Escape(c)
    ensures Printed(b, s + [c])
  {
    EscapedSnoc(s, c);
    hide Escape, Escaped;
    assert "\"" + Escaped(s) + Escape(c) == "\"" + (Escaped(s) + Escape(c));
  }

  method JsonString(s: string) returns (b: string)
    ensures b == Quoted(s)
  {
    b := "\"";
    assert Printed(b, "") by { assert "\"" + "" == "\""; }
    for i := 0 to |s|
      invariant Printed(b, s[..i])
    {
      hide Printed;
      var r := s[i];
      ghost var was := b;
      if r == '"' {
        b := b + "\\\"";
      } else if r == '\\' {
        b := b + "\\\\";
      } else if r == '\n' {
        b := b + "\\n";
      } else if r == '\r' {
        b := b + "\\r";
      } else if r == '\t' {
        b := b + "\\t";
      } else if r as int < 0x20 {
        b := b + "\\u00";
        b := b + [Digits.DIGITS[(r as int / 16) % 16]];
        b := b + [Digits.DIGITS[r as int % 16]];
        assert b == was + ("\\u00" + [Digits.DIGITS[r as int / 16], Digits.DIGITS[r as int % 16]]);
      } else {
        b := b + [r];
      }
      assert b == was + Escape(r);
      PrintedSnoc(was, s[..i], r, b);
      assert s[..i + 1] == s[..i] + [r];
    }
    assert s[..|s|] == s;
    b := b + "\"";
  }

  // ----- decoding -----------------------------------------------------------

  /** The code unit of four hex digits. */
  function Unit(s: string): Option<nat> {
    if |s| < 4 || Digits.Value(s[0]) == None || Digits.Value(s[1]) == None || Digits.Value(s[2]) == None || Digits.Value(s[3]) == None
    then None
    else Some(((Digits.Value(s[0]).value * 16 + Digits.Value(s[1]).value) * 16 + Digits.Value(s[2]).value) * 16 + Digits.Value(s[3]).value)
  }

  predicate IsScalar(n: nat) {
    n < 0xD800 || 0xE000 <= n < 0x11_0000
  }

  /** The character at the front of a string literal's body, and how many characters it takes:
      unescaped, a two-character escape, or one or two six-character escapes. */
  function Front(s: string): Option<(char, nat)> {
    if s == "" || s[0] == '"' || s[0] as int < 0x20 then None
    else if s[0] != '\\' then Some((s[0], 1))
    else if |s| < 2 then None
    else match s[1]
         case '"' => Some(('"', 2))
         case '\\' => Some(('\\', 2))
         case '/' => Some(('/', 2))
         case 'b' => Some(('\U{08}', 2))
         case 'f' => Some(('\U{0C}', 2))
         case 'n' => Some(('\n', 2))
         case 'r' => Some(('\r', 2))
         case 't' => Some(('\t', 2))
         case 'u' => FrontUnit(s)
         case _ => None
  }

  function FrontUnit(s: string): Option<(char, nat)>
    requires |s| >= 2
  {
    match Unit(s[2..])
    case None => None
    case Some(hi) =>
      if IsScalar(hi) then Some((hi as char, 6))
      else if 0xD800 <= hi < 0xDC00 && |s| >= 12 && s[6] == '\\' && s[7] == 'u' then
        match Unit(s[8..])
        case None => None
        case Some(lo) =>
          if 0xDC00 <= lo < 0xE000 then
            var n := 0x1_0000 + (hi - 0xD800) * 0x400 + (lo - 0xDC00);
            if IsScalar(n) then Some((n as char, 12)) else None
          else None
      else None
  }

  /** The characters up to the closing quotation mark, which must come last. */
  function Body(s: string): Option<string>
    decreases |s|
  {
    if s == "\"" then Some("")
    else match Front(s)
         case None => None
         case Some((c, n)) =>
           if n == 0 || n > |s| then None
           else match Body(s[n..])
                case None => None
                case Some(rest) => Some([c] + rest)
  }

  function Decode(s: string): Option<string> {
    if s == "" || s[0] != '"' then None else Body(s[1..])
  }

  // ----- inverse ------------------------------------------------------------

  lemma FrontOfEscape(c: char, tail: string)
    ensures Front(Escape(c) + tail) == Some((c, |Escape(c)|)) && (Escape(c) + tail)[|Escape(c)|..] == tail
  {
    var s := Escape(c) + tail;
    if c != '"' && c != '\\' && c != '\n' && c != '\r' && c != '\t' && c as int < 0x20 {
      FrontOfControl(c, tail);
    } else if c as int < 0x20 || c == '"' || c == '\\' {
      assert |Escape(c)| == 2 && s[0] == '\\' && s[1] == Escape(c)[1];
    } else {
      assert s[0] == c;
    }
  }

  lemma FrontOfControl(c: char, tail: string)
    requires c as int < 0x20
    ensures var e := "\\u00" + [Digits.DIGITS[c as int / 16], Digits.DIGITS[c as int % 16]];
            Front(e + tail) == Some((c, 6))
  {
    var hi, lo := c as int / 16, c as int % 16;
    var e := "\\u00" + [Digits.DIGITS[hi], Digits.DIGITS[lo]];
    var s := e + tail;
    assert s[0] == '\\' && s[1] == 'u';
    assert s[2..][0] == '0' && s[2..][1] == '0' && s[2..][2] == Digits.DIGITS[hi] && s[2..][3] == Digits.DIGITS[lo];
    Digits.ValueOfDigit(hi);
    Digits.ValueOfDigit(lo);
    assert Unit(s[2..]) == Some(hi * 16 + lo);
  }

  lemma {:induction false} BodyOfEscaped(s: string)
    ensures Body(Escaped(s) + "\"") == Some(s)
    decreases |s|
  {
    hide Front, Escape;
    if s == "" {
      assert "" + "\"" == "\"";
    } else {
      var tail := Escaped(s[1..]) + "\"";
      assert [s[0]] + s[1..] == s;
      assert Escaped(s) + "\"" == Escape(s[0]) + tail;
      FrontOfEscape(s[0], tail);
      EscapeIsNotQuote(s[0], tail);
      BodyOfEscaped(s[1..]);
    }
  }

  lemma EscapeIsNotQuote(c: char, tail: string)
    ensures Escape(c) != "" && Escape(c) + tail != "\""
  {
    assert (Escape(c) + tail)[0] == Escape(c)[0];
  }

  /** For every string of Unicode scalar values the printer writes a string literal of the grammar,
      and decoding it gives the string back. */
  lemma PrinterInverse(s: string)
    ensures Decode(Quoted(s)) == Some(s)
  {
    BodyOfEscaped(s);
    assert Quoted(s)[1..] == Escaped(s) + "\"";
  }

  /** So no two messages are printed alike. */
  lemma PrinterInjective(s: string, t: string)
    requires Quoted(s) == Quoted(t)
    ensures s == t
  {
    PrinterInverse(s);
    PrinterInverse(t);
  }
}
