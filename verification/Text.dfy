/** The few string operations of Go's standard library the commands rely on. */
module Text {

  /** `unicode.IsSpace` */
  predicate IsSpace(c: char) {
    || '\t' <= c <= '\r' || c == ' ' || c == '\U{85}' || c == '\U{A0}' || c == '\U{1680}'
    || '\U{2000}' <= c <= '\U{200A}' || c == '\U{2028}' || c == '\U{2029}' || c == '\U{202F}'
    || c == '\U{205F}' || c == '\U{3000}'
  }

  /** The white space of Unicode, by code point. */
  lemma IsSpaceExactly(c: char)
    ensures IsSpace(c)
            <==> var n := c as int;
                 9 <= n <= 13 || n in {32, 0x85, 0xA0, 0x1680, 0x2028, 0x2029, 0x202F, 0x205F, 0x3000} || 0x2000 <= n <= 0x200A
  {
  }

  function TrimStart(s: string, cut: char -> bool): string {
    if s != [] && cut(s[0]) then TrimStart(s[1..], cut) else s
  }

  function TrimEnd(s: string, cut: char -> bool): string {
    if s != [] && cut(s[|s| - 1]) then TrimEnd(s[..|s| - 1], cut) else s
  }

  function Trim(s: string, cut: char -> bool): string {
    TrimEnd(TrimStart(s, cut), cut)
  }

  function TrimSpace(s: string): string {
    Trim(s, IsSpace)
  }

  /** `strings.ToLower`, exact for ASCII; `other` lowers the remaining characters. */
  function ToLower(s: string, other: char -> char): string {
    seq(|s|, i requires 0 <= i < |s| =>
      if 'A' <= s[i] <= 'Z' then s[i] - 'A' + 'a' else if s[i] < '\U{80}' then s[i] else other(s[i]))
  }

  lemma ToLowerExactly(s: string, other: char -> char)
    ensures |ToLower(s, other)| == |s|
    ensures forall i | 0 <= i < |s| ::
              var n, m := s[i] as int, ToLower(s, other)[i] as int;
              if 65 <= n <= 90 then m == n + 32 else if n < 128 then m == n else ToLower(s, other)[i] == other(s[i])
  {
  }

  /** `strings.Join` */
  function Join(parts: seq<string>, separator: string): string {
    if parts == [] then ""
    else if |parts| == 1 then parts[0]
    else parts[0] + separator + Join(parts[1..], separator)
  }

  /** Where two ways to split a string at the same character differ, the longer head contains it. */
  lemma LongerHeadHas(p: string, r: string, q: string, s: string, c: char)
    requires p + [c] + r == q + [c] + s && |q| < |p|
    ensures c in p
  {
    assert (p + [c] + r)[|q|] == p[|q|] && (q + [c] + s)[|q|] == c;
  }

  /** Lists of the same length, none of whose parts contains the separating character, are joined to the same
      string only if they are the same. */
  lemma {:induction false} JoinSeparates(a: seq<string>, b: seq<string>, c: char)
    requires |a| == |b| && forall part | part in a + b :: c !in part
    requires Join(a, [c]) == Join(b, [c])
    ensures a == b
  {
    if |a| > 1 {
      assert a[0] in a + b && b[0] in a + b;
      var x, y := Join(a[1..], [c]), Join(b[1..], [c]);
      if |a[0]| < |b[0]| {
        LongerHeadHas(b[0], y, a[0], x, c);
      } else if |b[0]| < |a[0]| {
        LongerHeadHas(a[0], x, b[0], y, c);
      }
      assert a[0] == (a[0] + [c] + x)[..|a[0]|] && b[0] == (b[0] + [c] + y)[..|b[0]|];
      assert x == (a[0] + [c] + x)[|a[0]| + 1..] && y == (b[0] + [c] + y)[|b[0]| + 1..];
      forall part | part in a[1..] + b[1..]
        ensures c !in part
      {
        assert part in a + b;
      }
      JoinSeparates(a[1..], b[1..], c);
      assert a == [a[0]] + a[1..] && b == [b[0]] + b[1..];
    } else if |a| == 1 {
      assert a == [a[0]] && b == [b[0]];
    }
  }

  predicate OccursAt(s: string, part: string, i: nat) {
    i + |part| <= |s| && s[i..i + |part|] == part
  }

  /** `strings.Contains` */
  predicate Contains(s: string, part: string) {
    exists i: nat | i <= |s| :: OccursAt(s, part, i)
  }

  lemma {:induction false} TrimStartResult(s: string, cut: char -> bool)
    ensures var t := TrimStart(s, cut);
            && (t == [] || !cut(t[0]))
            && |t| <= |s| && t == s[|s| - |t|..] && forall c <- s[..|s| - |t|] :: cut(c)
  {
    if s != [] && cut(s[0]) {
      TrimStartResult(s[1..], cut);
      var t := TrimStart(s, cut);
      assert s[..|s| - |t|] == [s[0]] + s[1..][..|s| - 1 - |t|];
    }
  }

  lemma {:induction false} TrimEndResult(s: string, cut: char -> bool)
    ensures var t := TrimEnd(s, cut);
            && (t == [] || !cut(t[|t| - 1]))
            && |t| <= |s| && t == s[..|t|] && forall c <- s[|t|..] :: cut(c)
  {
    if s != [] && cut(s[|s| - 1]) {
      TrimEndResult(s[..|s| - 1], cut);
      var t := TrimEnd(s, cut);
      assert s[|t|..] == s[..|s| - 1][|t|..] + [s[|s| - 1]];
    }
  }

  /** What is left neither starts nor ends with a trimmed character, and what is gone from either end is
      nothing but trimmed characters. */
  lemma TrimResult(s: string, cut: char -> bool)
    ensures var t := Trim(s, cut);
            && (t != [] ==> !cut(t[0]) && !cut(t[|t| - 1]))
            && (forall c :: c in t ==> c in s)
            && exists before, after :: s == before + t + after && (forall c <- before + after :: cut(c))
  {
    TrimStartResult(s, cut);
    var rest := TrimStart(s, cut);
    TrimEndResult(rest, cut);
    var t := Trim(s, cut);
    assert s == s[..|s| - |rest|] + t + rest[|t|..];
  }

  /** A trimmed string is its own trimming. */
  lemma TrimTwice(s: string, cut: char -> bool)
    ensures Trim(Trim(s, cut), cut) == Trim(s, cut)
  {
    TrimResult(s, cut);
  }

  lemma TrimSpaceTwice(s: string)
    ensures TrimSpace(TrimSpace(s)) == TrimSpace(s)
  {
    TrimTwice(s, IsSpace);
  }

  /** A word without space at either end is its own trimming. */
  lemma TrimmedWord(s: string)
    requires s == "" || (!IsSpace(s[0]) && !IsSpace(s[|s| - 1]))
    ensures TrimSpace(s) == s
  {
  }
}
