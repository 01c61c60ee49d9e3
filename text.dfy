/**
 * The JavaScript string operations the app relies on: `trim`, `toLowerCase`,
 * `toUpperCase` of one character, `includes`, `replace` of the first match,
 * and number-to-text conversion of integers.  Lower-casing covers the ASCII
 * and Latin-1 capitals, upper-casing the ASCII letters; whitespace covers the
 * ASCII characters `trim` removes, U+00A0 and the byte-order mark.
 */
module Text {

  predicate IsWhitespace(c: char)
  {
    c == ' ' || c == '\t' || c == '\n' || c == '\r' || c == '\U{000B}' || c == '\U{000C}'
    || c == '\U{00A0}' || c == '\U{FEFF}'
  }

  /** `s` without its leading whitespace. */
  function TrimStart(s: string): string
    decreases |s|
  {
    if s != [] && IsWhitespace(s[0]) then TrimStart(s[1..]) else s
  }

  /** `s` without its trailing whitespace. */
  function TrimEnd(s: string): string
    decreases |s|
  {
    if s != [] && IsWhitespace(s[|s| - 1]) then TrimEnd(s[..|s| - 1]) else s
  }

  /** `s.trim()`: what is left of `s` once leading and trailing whitespace are removed. */
  function Trim(s: string): string
  {
    TrimEnd(TrimStart(s))
  }

  /** `TrimStart` removes a run of whitespace from the front and stops at a non-whitespace character. */
  lemma {:induction false} TrimStartSuffix(s: string)
    ensures var r := TrimStart(s);
      |r| <= |s| && r == s[|s| - |r|..] &&
      (forall i :: 0 <= i < |s| - |r| ==> IsWhitespace(s[i])) &&
      (r != [] ==> !IsWhitespace(r[0]))
    decreases |s|
  {
    if s != [] && IsWhitespace(s[0]) {
      TrimStartSuffix(s[1..]);
      forall i | 0 < i < |s| - |TrimStart(s)| ensures IsWhitespace(s[i]) {
        assert s[i] == s[1..][i - 1];
      }
    }
  }

  /** `TrimEnd` removes a run of whitespace from the back and stops at a non-whitespace character. */
  lemma {:induction false} TrimEndPrefix(s: string)
    ensures var r := TrimEnd(s);
      |r| <= |s| && r == s[..|r|] &&
      (forall i :: |r| <= i < |s| ==> IsWhitespace(s[i])) &&
      (r != [] ==> !IsWhitespace(r[|r| - 1]))
    decreases |s|
  {
    if s != [] && IsWhitespace(s[|s| - 1]) {
      TrimEndPrefix(s[..|s| - 1]);
      forall i | |TrimEnd(s)| <= i < |s| - 1 ensures IsWhitespace(s[i]) {
        assert s[i] == s[..|s| - 1][i];
      }
    }
  }

  /** What `trim` leaves neither starts nor ends with whitespace, and is a piece of the original text. */
  lemma TrimResult(s: string)
    ensures var r := Trim(s);
      |r| <= |s| && (r != [] ==> !IsWhitespace(r[0]) && !IsWhitespace(r[|r| - 1])) &&
      exists i :: OccursAt(s, r, i)
  {
    var t := TrimStart(s);
    var r := TrimEnd(t);
    TrimStartSuffix(s);
    TrimEndPrefix(t);
    var k := |s| - |t|;
    if r != [] {
      assert r[0] == t[0];
    }
    assert t[..|r|] == s[k..k + |r|];
    assert OccursAt(s, r, k);
  }

  /** `trim` leaves nothing exactly when the text is blank. */
  lemma TrimEmpty(s: string)
    ensures Trim(s) == [] <==> IsBlank(s)
  {
    var t := TrimStart(s);
    TrimStartSuffix(s);
    TrimEndPrefix(t);
    IsBlankAll(s);
    var k := |s| - |t|;
    if t != [] {
      assert TrimEnd(t)[0] == t[0] == s[k];
    }
  }

  /** Nothing but whitespace. */
  predicate IsBlank(s: string)
    decreases |s|
  {
    s == [] || (IsWhitespace(s[0]) && IsBlank(s[1..]))
  }

  /** A blank text is whitespace throughout. */
  lemma {:induction false} IsBlankAll(s: string)
    ensures IsBlank(s) <==> forall i :: 0 <= i < |s| ==> IsWhitespace(s[i])
    decreases |s|
  {
    if s != [] {
      IsBlankAll(s[1..]);
      assert forall i :: 0 < i < |s| ==> s[i] == s[1..][i - 1];
    }
  }

  /** Trimming twice is trimming once. */
  lemma TrimIdempotent(s: string)
    ensures Trim(Trim(s)) == Trim(s)
  {
    var r := Trim(s);
    TrimResult(s);
    assert TrimStart(r) == r;
    assert TrimEnd(r) == r;
  }

  /**
   * `toLowerCase` on one character: the ASCII capitals and the Latin-1
   * capitals U+00C0 to U+00DE (except the multiplication sign U+00D7) move
   * down by 32; every other character is kept.
   */
  function LowerChar(c: char): char
  {
    if 'A' <= c <= 'Z' || ('\U{00C0}' <= c <= '\U{00DE}' && c != '\U{00D7}') then (c as int + 32) as char else c
  }

  /** `toUpperCase` on one character, for the ASCII letters the chart labels start with. */
  function UpperChar(c: char): char
  {
    if 'a' <= c <= 'z' then (c as int - 32) as char else c
  }

  /** `s.toLowerCase()`. */
  function ToLower(s: string): (r: string)
    ensures |r| == |s| && forall i :: 0 <= i < |s| ==> r[i] == LowerChar(s[i])
  {
    seq(|s|, i requires 0 <= i < |s| => LowerChar(s[i]))
  }

  predicate StartsWith(s: string, t: string)
  {
    |t| <= |s| && s[..|t|] == t
  }

  /** `s.includes(t)`, as a left-to-right scan of the start positions. */
  predicate Contains(s: string, t: string)
    decreases |s|
  {
    StartsWith(s, t) || (s != [] && Contains(s[1..], t))
  }

  /** `t` occurs in `s` starting at position `i`. */
  predicate OccursAt(s: string, t: string, i: int)
  {
    0 <= i <= |s| - |t| && s[i..i + |t|] == t
  }

  /** The scan finds `t` exactly when `t` occurs somewhere in `s`. */
  lemma {:induction false} ContainsIffOccurs(s: string, t: string)
    ensures Contains(s, t) <==> exists i :: OccursAt(s, t, i)
    decreases |s|
  {
    if StartsWith(s, t) {
      assert OccursAt(s, t, 0);
    }
    if s != [] {
      ContainsIffOccurs(s[1..], t);
      if exists i :: OccursAt(s, t, i) {
        var i :| OccursAt(s, t, i);
        if i > 0 {
          assert OccursAt(s[1..], t, i - 1);
        }
      }
      if Contains(s[1..], t) {
        var i :| OccursAt(s[1..], t, i);
        assert OccursAt(s, t, i + 1);
      }
    } else if exists i :: OccursAt(s, t, i) {
      var i :| OccursAt(s, t, i);
      assert StartsWith(s, t);
    }
  }

  /** Every string includes the empty string. */
  lemma ContainsEmpty(s: string)
    ensures Contains(s, "")
  {
  }

  /** Position of the first `a` in `s`, or `|s|` when there is none. */
  function FirstIndex(s: string, a: char): (i: nat)
    ensures i <= |s| && a !in s[..i]
    ensures i < |s| ==> s[i] == a
    ensures i == |s| <==> a !in s
    decreases |s|
  {
    if s == [] then 0
    else if s[0] == a then 0
    else
      assert s[..FirstIndex(s[1..], a) + 1] == [s[0]] + s[1..][..FirstIndex(s[1..], a)];
      1 + FirstIndex(s[1..], a)
  }

  /** `s.replace(a, b)` with one-character strings: only the first occurrence changes. */
  function ReplaceFirst(s: string, a: char, b: char): (r: string)
    ensures |r| == |s|
    ensures forall j :: 0 <= j < |s| && j != FirstIndex(s, a) ==> r[j] == s[j]
    ensures a in s ==> r[FirstIndex(s, a)] == b
    ensures a !in s ==> r == s
  {
    var i := FirstIndex(s, a);
    if i == |s| then s else s[..i] + [b] + s[i + 1..]
  }

  predicate IsDigit(c: char)
  {
    '0' <= c <= '9'
  }

  function DigitChar(d: nat): (c: char)
    requires d < 10
    ensures IsDigit(c) && c as int - '0' as int == d
  {
    ('0' as int + d) as char
  }

  /** The decimal text of a non-negative integer, as a JavaScript template literal renders it. */
  function NatToString(n: nat): (r: string)
    ensures r != [] && forall i :: 0 <= i < |r| ==> IsDigit(r[i])
    decreases n
  {
    if n < 10 then [DigitChar(n)] else NatToString(n / 10) + [DigitChar(n % 10)]
  }

  function IntToString(i: int): string
  {
    if i < 0 then "-" + NatToString(-i) else NatToString(i)
  }

  function DigitValue(c: char): nat
    requires IsDigit(c)
  {
    c as int - '0' as int
  }

  /** The value of a string of decimal digits. */
  function ParseNat(s: string): nat
    requires forall i :: 0 <= i < |s| ==> IsDigit(s[i])
    decreases |s|
  {
    if s == [] then 0 else ParseNat(s[..|s| - 1]) * 10 + DigitValue(s[|s| - 1])
  }

  /** Reading back the decimal text of `n` gives `n`. */
  lemma {:induction false} ParseNatToString(n: nat)
    ensures ParseNat(NatToString(n)) == n
    decreases n
  {
    if n >= 10 {
      var s := NatToString(n);
      assert s[..|s| - 1] == NatToString(n / 10);
      ParseNatToString(n / 10);
    }
  }
}
