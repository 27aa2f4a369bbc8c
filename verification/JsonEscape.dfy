/** The string escaping of the sidecar's hand-written JSON (envelope.rs), against the strings of section 7
    of RFC 8259. */
module JsonEscape {
  import opened Outcomes

  /** `str::replace` with a one-character pattern. */
  function Replace(s: string, pattern: char, replacement: string): string {
    if s == [] then [] else (if s[0] == pattern then replacement else [s[0]]) + Replace(s[1..], pattern, replacement)
  }

  /** `json_escape`: five replacements of the whole string, one after the other. */
  function Escape(s: string): string {
    var backslash := Replace(s, '\\', "\\\\");
    var quote := Replace(backslash, '"', "\\\"");
    var newline := Replace(quote, '\n', "\\n");
    var return_ := Replace(newline, '\r', "\\r");
    Replace(return_, '\t', "\\t")
  }

  function EscapeChar(c: char): string {
    if c == '\\' then "\\\\"
    else if c == '"' then "\\\""
    else if c == '\n' then "\\n"
    else if c == '\r' then "\\r"
    else if c == '\t' then "\\t"
    else [c]
  }

  /** Each character replaced on its own. */
  function EscapeEach(s: string): string {
    if s == [] then [] else EscapeChar(s[0]) + EscapeEach(s[1..])
  }

  lemma {:induction false} ReplaceDistributes(s: string, t: string, pattern: char, replacement: string)
    ensures Replace(s + t, pattern, replacement) == Replace(s, pattern, replacement) + Replace(t, pattern, replacement)
  {
    if s == [] {
      assert s + t == t;
    } else {
      assert (s + t)[1..] == s[1..] + t;
      ReplaceDistributes(s[1..], t, pattern, replacement);
    }
  }

  /** Replacing five times over the whole string is replacing each character once: no replacement
      touches what an earlier one produced. */
  lemma {:induction false} EscapeIsPerCharacter(s: string)
    ensures Escape(s) == EscapeEach(s)
  {
    if s != [] {
      var c, rest := [s[0]], s[1..];
      assert s == c + rest;
      EscapeDistributes(c, rest);
      EscapeOne(s[0]);
      EscapeIsPerCharacter(rest);
    }
  }

  lemma EscapeDistributes(s: string, t: string)
    ensures Escape(s + t) == Escape(s) + Escape(t)
  {
    hide Replace;
    ReplaceDistributes(s, t, '\\', "\\\\");
    var s1, t1 := Replace(s, '\\', "\\\\"), Replace(t, '\\', "\\\\");
    ReplaceDistributes(s1, t1, '"', "\\\"");
    var s2, t2 := Replace(s1, '"', "\\\""), Replace(t1, '"', "\\\"");
    ReplaceDistributes(s2, t2, '\n', "\\n");
    var s3, t3 := Replace(s2, '\n', "\\n"), Replace(t2, '\n', "\\n");
    ReplaceDistributes(s3, t3, '\r', "\\r");
    var s4, t4 := Replace(s3, '\r', "\\r"), Replace(t3, '\r', "\\r");
    ReplaceDistributes(s4, t4, '\t', "\\t");
  }

  lemma ReplaceOne(c: char, pattern: char, replacement: string)
    ensures Replace([c], pattern, replacement) == if c == pattern then replacement else [c]
  {
    assert [c][1..] == [];
  }

  lemma ReplaceTwo(c: char, d: char, pattern: char, replacement: string)
    requires c != pattern && d != pattern
    ensures Replace([c, d], pattern, replacement) == [c, d]
  {
    assert [c, d] == [c] + [d];
    ReplaceDistributes([c], [d], pattern, replacement);
    ReplaceOne(c, pattern, replacement);
    ReplaceOne(d, pattern, replacement);
  }

  lemma EscapeOne(c: char)
    ensures Escape([c]) == EscapeChar(c)
  {
    hide Replace;
    ReplaceOne(c, '\\', "\\\\");
    ReplaceOne(c, '"', "\\\"");
    ReplaceOne(c, '\n', "\\n");
    ReplaceOne(c, '\r', "\\r");
    ReplaceOne(c, '\t', "\\t");
    var two := if c == '\\' then '\\' else if c == '"' then '"' else if c == '\n' then 'n' else if c == '\r' then 'r' else 't';
    assert "\\\\" == ['\\', '\\'] && "\\\"" == ['\\', '"'] && "\\n" == ['\\', 'n'] && "\\r" == ['\\', 'r'];
    if two != '"' {
      ReplaceTwo('\\', two, '"', "\\\"");
    }
    ReplaceTwo('\\', two, '\n', "\\n");
    ReplaceTwo('\\', two, '\r', "\\r");
    ReplaceTwo('\\', two, '\t', "\\t");
  }

  // ---- Decoding ----

  predicate IsHex(c: char) {
    '0' <= c <= '9' || 'a' <= c <= 'f' || 'A' <= c <= 'F'
  }

  function HexDigit(c: char): (d: nat)
    requires IsHex(c)
    ensures d < 16
  {
    if '0' <= c <= '9' then (c - '0') as nat else if 'a' <= c <= 'f' then (c - 'a') as nat + 10 else (c - 'A') as nat + 10
  }

  /** The UTF-16 code unit after `\u` at this position. */
  function CodeUnit(t: string, i: nat): (u: Option<nat>)
    ensures u.Some? ==> u.value < 0x10000
  {
    if i + 6 <= |t| && t[i] == '\\' && t[i + 1] == 'u' && IsHex(t[i + 2]) && IsHex(t[i + 3]) && IsHex(t[i + 4]) && IsHex(t[i + 5]) then
      Some(4096 * HexDigit(t[i + 2]) + 256 * HexDigit(t[i + 3]) + 16 * HexDigit(t[i + 4]) + HexDigit(t[i + 5]))
    else None
  }

  function Prepend(c: char, rest: Option<string>): Option<string> {
    if rest.Some? then Some([c] + rest.value) else None
  }

  /** The string between the quotation marks, if what is between them is well-formed. */
  function Decode(t: string): Option<string> {
    if t == [] then Some([])
    else if t[0] != '\\' then
      if t[0] == '"' || t[0] < ' ' then None else Prepend(t[0], Decode(t[1..]))
    else if |t| < 2 then None
    else if t[1] == '"' || t[1] == '\\' || t[1] == '/' then Prepend(t[1], Decode(t[2..]))
    else if t[1] == 'b' then Prepend('\U{8}', Decode(t[2..]))
    else if t[1] == 'f' then Prepend('\U{C}', Decode(t[2..]))
    else if t[1] == 'n' then Prepend('\n', Decode(t[2..]))
    else if t[1] == 'r' then Prepend('\r', Decode(t[2..]))
    else if t[1] == 't' then Prepend('\t', Decode(t[2..]))
    else
      match CodeUnit(t, 0)
      case None => None
      case Some(u) =>
        if u < 0xD800 || 0xE000 <= u then Prepend(u as char, Decode(t[6..]))
        else
          match CodeUnit(t, 6)
          case None => None
          case Some(v) =>
            if u < 0xDC00 && 0xDC00 <= v < 0xE000 then
              Prepend((0x10000 + 0x400 * (u - 0xD800) + (v - 0xDC00)) as char, Decode(t[12..]))
            else None
  }

  function DigitOf(d: nat, upper: bool): char
    requires d < 16
  {
    if upper then "0123456789ABCDEF"[d] else "0123456789abcdef"[d]
  }

  lemma DigitIsRead(d: nat, upper: bool)
    requires d < 16
    ensures IsHex(DigitOf(d, upper)) && HexDigit(DigitOf(d, upper)) == d
  {
  }

  /** A code unit as four hexadecimal digits. */
  function UnitEscape(u: nat, upper: bool): string
    requires u < 0x10000
  {
    var sixteens := u / 16;
    var squares := sixteens / 16;
    var cubes := squares / 16;
    ['\\', 'u', DigitOf(cubes, upper), DigitOf(squares % 16, upper), DigitOf(sixteens % 16, upper), DigitOf(u % 16, upper)]
  }

  lemma DigitsAreRead(a: nat, b: nat, c: nat, d: nat, upper: bool, before: string, rest: string)
    requires a < 16 && b < 16 && c < 16 && d < 16
    ensures CodeUnit(before + ['\\', 'u', DigitOf(a, upper), DigitOf(b, upper), DigitOf(c, upper), DigitOf(d, upper)] + rest, |before|)
            == Some(4096 * a + 256 * b + 16 * c + d)
  {
    DigitIsRead(a, upper);
    DigitIsRead(b, upper);
    DigitIsRead(c, upper);
    DigitIsRead(d, upper);
    hide DigitOf, HexDigit, IsHex;
    var e := ['\\', 'u', DigitOf(a, upper), DigitOf(b, upper), DigitOf(c, upper), DigitOf(d, upper)];
    assert forall k :: 0 <= k < 6 ==> (before + e + rest)[|before| + k] == e[k];
  }

  lemma UnitIsRead(u: nat, upper: bool, before: string, rest: string)
    requires u < 0x10000
    ensures CodeUnit(before + UnitEscape(u, upper) + rest, |before|) == Some(u)
  {
    hide CodeUnit, DigitOf;
    var sixteens := u / 16;
    var squares := sixteens / 16;
    var cubes := squares / 16;
    DigitsAreRead(cubes, squares % 16, sixteens % 16, u % 16, upper, before, rest);
  }

  /** A character as one `\u` escape, or as two for its surrogate pair. */
  function ScalarEscape(c: char, upper: bool): string {
    var n := c as nat;
    if n < 0x10000 then UnitEscape(n, upper)
    else UnitEscape(0xD800 + (n - 0x10000) / 0x400, upper) + UnitEscape(0xDC00 + (n - 0x10000) % 0x400, upper)
  }

  /** The decoder reads every character written that way, in digits of either case. */
  lemma AnyEscapeIsRead(c: char, upper: bool, rest: string)
    ensures Decode(ScalarEscape(c, upper) + rest) == Prepend(c, Decode(rest))
  {
    hide UnitEscape, CodeUnit;
    var n, t := c as nat, ScalarEscape(c, upper) + rest;
    assert forall u: nat | u < 0x10000 :: |UnitEscape(u, upper)| == 6 && UnitEscape(u, upper)[..2] == "\\u" by {
      EscapesBegin(upper);
    }
    if n < 0x10000 {
      UnitIsRead(n, upper, "", rest);
      assert "" + UnitEscape(n, upper) + rest == t && t[6..] == rest;
      assert t[0] == t[..2][0] && t[1] == t[..2][1] && t[..2] == UnitEscape(n, upper)[..2];
    } else {
      var high, low := 0xD800 + (n - 0x10000) / 0x400, 0xDC00 + (n - 0x10000) % 0x400;
      UnitIsRead(high, upper, "", UnitEscape(low, upper) + rest);
      UnitIsRead(low, upper, UnitEscape(high, upper), rest);
      assert "" + UnitEscape(high, upper) + (UnitEscape(low, upper) + rest) == t && t[12..] == rest;
      assert t[0] == t[..2][0] && t[1] == t[..2][1] && t[..2] == UnitEscape(high, upper)[..2];
      assert n == 0x10000 + 0x400 * (high - 0xD800) + (low - 0xDC00);
    }
  }

  lemma EscapesBegin(upper: bool)
    ensures forall u: nat | u < 0x10000 :: |UnitEscape(u, upper)| == 6 && UnitEscape(u, upper)[..2] == "\\u"
  {
  }

  /** Control characters other than newline, carriage return and tab. */
  predicate IsOtherControl(c: char) {
    c < ' ' && c != '\n' && c != '\r' && c != '\t'
  }

  /** Decoding an escaped string gives the string back exactly when it holds no control character but
      newline, carriage return and tab; otherwise the escaped string is not well-formed. */
  lemma {:induction false} DecodeInvertsEscapeExactly(s: string)
    ensures Decode(Escape(s)) == if exists c :: c in s && IsOtherControl(c) then None else Some(s)
  {
    EscapeIsPerCharacter(s);
    if s != [] {
      var rest := s[1..];
      DecodeInvertsEscapeExactly(rest);
      EscapeIsPerCharacter(rest);
      assert (exists c :: c in s && IsOtherControl(c)) <==> IsOtherControl(s[0]) || exists c :: c in rest && IsOtherControl(c);
      DecodeOne(s[0], EscapeEach(rest));
      assert s == [s[0]] + rest;
    }
  }

  lemma DecodeOne(c: char, rest: string)
    ensures Decode(EscapeChar(c) + rest) == if IsOtherControl(c) then None else Prepend(c, Decode(rest))
  {
    var t := EscapeChar(c) + rest;
    assert t[|EscapeChar(c)|..] == rest;
  }
}
