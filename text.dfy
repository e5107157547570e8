/**
 * The string operations of ECMAScript that the validators and the payment handler
 * rely on: decimal digits and numerals, `String.prototype.split` on one character,
 * `String.prototype.trim`, and the read-back of those numerals.
 */
module Text {

  // ---------------------------------------------------------------- digits

  /** `[0-9]`, which is also what `\d` matches in a regular expression without the `u` flag. */
  predicate IsDigit(c: char) {
    '0' <= c <= '9'
  }

  predicate AllDigits(s: string) {
    forall i | 0 <= i < |s| :: IsDigit(s[i])
  }

  function DigitValue(c: char): (d: nat)
    requires IsDigit(c)
    ensures d < 10
  {
    c as int - '0' as int
  }

  function DigitChar(d: nat): (c: char)
    requires d < 10
    ensures IsDigit(c) && DigitValue(c) == d
  {
    ('0' as int + d) as char
  }

  lemma DigitCharOfValue(c: char)
    requires IsDigit(c)
    ensures DigitChar(DigitValue(c)) == c
  {
  }

  /** The value of a string of decimal digits, most significant digit first. */
  function DecimalValue(s: string): nat
    requires AllDigits(s)
    decreases |s|
  {
    if s == [] then 0 else 10 * DecimalValue(s[..|s| - 1]) + DigitValue(s[|s| - 1])
  }

  lemma TwoDigitValue(t: string)
    requires |t| == 2 && AllDigits(t)
    ensures DecimalValue(t) == 10 * DigitValue(t[0]) + DigitValue(t[1])
  {
    var head := t[..1];
    assert head[..0] == [] && head[0] == t[0] && t[..|t| - 1] == head;
    assert DecimalValue(head) == 10 * DecimalValue(head[..0]) + DigitValue(head[0]);
  }

  /** The decimal numeral of `n` with no leading zero, as `String(n)` writes a safe integer. */
  function NatToString(n: nat): (s: string)
    ensures |s| >= 1 && AllDigits(s)
    ensures s[0] == '0' ==> s == "0"
    ensures DecimalValue(s) == n
    decreases n
  {
    if n < 10 then [DigitChar(n)]
    else
      var prefix := NatToString(n / 10);
      var s := prefix + [DigitChar(n % 10)];
      assert s[..|s| - 1] == prefix;
      s
  }

  lemma {:induction false} ZeroValueMeansZeros(s: string)
    requires AllDigits(s) && DecimalValue(s) == 0
    ensures forall i | 0 <= i < |s| :: s[i] == '0'
    decreases |s|
  {
    if s != [] {
      var p := s[..|s| - 1];
      ZeroValueMeansZeros(p);
      forall i | 0 <= i < |s| ensures s[i] == '0' {
        if i < |s| - 1 { assert s[i] == p[i]; }
      }
    }
  }

  /** Every numeral without a superfluous leading zero is the one NatToString writes for its value. */
  lemma {:induction false} NatToStringOfNumeral(s: string)
    requires |s| >= 1 && AllDigits(s)
    requires s[0] == '0' ==> s == "0"
    ensures NatToString(DecimalValue(s)) == s
    decreases |s|
  {
    var last := s[|s| - 1];
    if |s| == 1 {
      DigitCharOfValue(last);
      assert s == [last];
    } else {
      var p := s[..|s| - 1];
      assert p[0] == s[0];
      if DecimalValue(p) == 0 {
        ZeroValueMeansZeros(p);
        assert false;
      }
      NatToStringOfNumeral(p);
      DigitCharOfValue(last);
      var n := DecimalValue(s);
      assert n / 10 == DecimalValue(p) && n % 10 == DigitValue(last);
      assert s == p + [last];
    }
  }

  // ---------------------------------------------------------------- prefixes

  /** The part of `s` before the first `sep`; all of `s` when it holds none. */
  function TakeUntil(s: string, sep: char): (r: string)
    ensures |r| <= |s| && r == s[..|r|]
    ensures sep !in r
    ensures |r| < |s| ==> s[|r|] == sep
    decreases |s|
  {
    if s == [] || s[0] == sep then [] else [s[0]] + TakeUntil(s[1..], sep)
  }

  lemma TakeUntilAt(s: string, sep: char, i: nat)
    requires i < |s| && s[i] == sep && sep !in s[..i]
    ensures TakeUntil(s, sep) == s[..i]
  {
    var r := TakeUntil(s, sep);
    assert |r| == i;
  }

  lemma TakeUntilAbsent(s: string, sep: char)
    requires sep !in s
    ensures TakeUntil(s, sep) == s
  {
    var r := TakeUntil(s, sep);
    assert |r| == |s|;
  }

  /** The longest prefix of `s` made of decimal digits. */
  function LeadingDigits(s: string): (r: string)
    ensures |r| <= |s| && r == s[..|r|]
    ensures AllDigits(r)
    ensures |r| < |s| ==> !IsDigit(s[|r|])
    decreases |s|
  {
    if s == [] || !IsDigit(s[0]) then [] else [s[0]] + LeadingDigits(s[1..])
  }

  lemma LeadingDigitsOfDigits(s: string)
    requires AllDigits(s)
    ensures LeadingDigits(s) == s
  {
    var r := LeadingDigits(s);
    assert |r| == |s|;
  }

  /** Cutting a string at its first separator that is not a digit leaves its leading digits alone. */
  lemma {:induction false} LeadingDigitsBeforeSeparator(s: string, sep: char)
    requires !IsDigit(sep)
    ensures LeadingDigits(TakeUntil(s, sep)) == LeadingDigits(s)
    decreases |s|
  {
    if s != [] && s[0] != sep && IsDigit(s[0]) {
      var t := TakeUntil(s, sep);
      assert t == [s[0]] + TakeUntil(s[1..], sep);
      assert t[1..] == TakeUntil(s[1..], sep);
      LeadingDigitsBeforeSeparator(s[1..], sep);
    }
  }

  /** `parseInt(s, 10)` for a string that starts with a decimal digit: the value of its leading digits. */
  function ParseLeadingInt(s: string): (n: nat)
    ensures AllDigits(s) ==> n == DecimalValue(s)
  {
    var digits := LeadingDigits(s);
    assert AllDigits(s) ==> |digits| == |s| && digits == s[..|s|] == s;
    DecimalValue(digits)
  }

  /** `parseInt` stops at the first character that is not a digit. */
  lemma ParseLeadingIntStops(digits: string, tail: string)
    requires AllDigits(digits) && (tail == [] || !IsDigit(tail[0]))
    ensures ParseLeadingInt(digits + tail) == DecimalValue(digits)
  {
    LeadingDigitsStop(digits, tail);
  }

  lemma {:induction false} LeadingDigitsStop(digits: string, tail: string)
    requires AllDigits(digits) && (tail == [] || !IsDigit(tail[0]))
    ensures LeadingDigits(digits + tail) == digits
    decreases |digits|
  {
    if digits != [] {
      assert (digits + tail)[1..] == digits[1..] + tail;
      LeadingDigitsStop(digits[1..], tail);
    }
  }

  // ---------------------------------------------------------------- split

  /** `s.split(sep)` for a one-character separator: the separator-free pieces between separators, in order. */
  function Split(s: string, sep: char): (pieces: seq<string>)
    ensures |pieces| >= 1
    decreases |s|
  {
    if s == [] then [""]
    else
      var rest := Split(s[1..], sep);
      if s[0] == sep then [""] + rest else [[s[0]] + rest[0]] + rest[1..]
  }

  /** `pieces.join(sep)`. */
  function Join(pieces: seq<string>, sep: char): string
    requires |pieces| >= 1
    decreases |pieces|
  {
    if |pieces| == 1 then pieces[0] else pieces[0] + [sep] + Join(pieces[1..], sep)
  }

  /** Splitting loses nothing: joining the pieces gives the string back, and no piece holds the separator. */
  lemma {:induction false} JoinSplit(s: string, sep: char)
    ensures Join(Split(s, sep), sep) == s
    ensures forall i | 0 <= i < |Split(s, sep)| :: sep !in Split(s, sep)[i]
    decreases |s|
  {
    if s != [] {
      var rest := Split(s[1..], sep);
      JoinSplit(s[1..], sep);
      if s[0] == sep {
        assert Split(s, sep) == [""] + rest;
        assert ([""] + rest)[1..] == rest;
        assert s == [sep] + s[1..];
      } else {
        var pieces := Split(s, sep);
        assert pieces == [[s[0]] + rest[0]] + rest[1..];
        if |rest| == 1 {
          assert s == [s[0]] + s[1..];
        } else {
          assert pieces[1..] == rest[1..];
          assert Join(rest, sep) == rest[0] + [sep] + Join(rest[1..], sep);
          assert s == [s[0]] + s[1..];
        }
        forall i | 0 <= i < |pieces| ensures sep !in pieces[i] {
          if i > 0 { assert pieces[i] == rest[i]; }
        }
      }
    }
  }

  /** The first piece of a split is the text before the first separator; the other pieces are the split of what follows it. */
  lemma {:induction false} SplitFirstPiece(s: string, sep: char)
    ensures Split(s, sep)[0] == TakeUntil(s, sep)
    ensures |TakeUntil(s, sep)| < |s| ==> Split(s, sep)[1..] == Split(s[|TakeUntil(s, sep)| + 1..], sep)
    decreases |s|
  {
    if s != [] && s[0] != sep {
      SplitFirstPiece(s[1..], sep);
      var t := TakeUntil(s[1..], sep);
      if |t| < |s[1..]| {
        assert s[1..][|t| + 1..] == s[|t| + 2..];
      }
    }
  }

  // ---------------------------------------------------------------- trim

  /** The characters `String.prototype.trim` removes: ECMAScript WhiteSpace and LineTerminator. */
  predicate IsWhitespace(c: char) {
    var n := c as int;
    n == 0x09 || n == 0x0A || n == 0x0B || n == 0x0C || n == 0x0D || n == 0x20 || n == 0xA0
    || n == 0x1680 || (0x2000 <= n <= 0x200A) || n == 0x2028 || n == 0x2029 || n == 0x202F
    || n == 0x205F || n == 0x3000 || n == 0xFEFF
  }

  predicate AllWhitespace(s: string) {
    forall i | 0 <= i < |s| :: IsWhitespace(s[i])
  }

  /** `s.trimStart()`: the suffix of `s` after its leading whitespace. */
  function TrimStart(s: string): (r: string)
    ensures |r| <= |s| && r == s[|s| - |r|..]
    ensures AllWhitespace(s[..|s| - |r|])
    ensures r != [] ==> !IsWhitespace(r[0])
    decreases |s|
  {
    if s != [] && IsWhitespace(s[0]) then TrimStart(s[1..]) else s
  }

  /** `s.trimEnd()`: the prefix of `s` before its trailing whitespace. */
  function TrimEnd(s: string): (r: string)
    ensures |r| <= |s| && r == s[..|r|]
    ensures AllWhitespace(s[|r|..])
    ensures r != [] ==> !IsWhitespace(r[|r| - 1])
    decreases |s|
  {
    if s != [] && IsWhitespace(s[|s| - 1]) then TrimEnd(s[..|s| - 1]) else s
  }

  /** `s.trim()`. */
  function Trim(s: string): (r: string)
    ensures r == [] <==> AllWhitespace(s)
    ensures r != [] ==> !IsWhitespace(r[0]) && !IsWhitespace(r[|r| - 1])
  {
    TrimEnd(TrimStart(s))
  }

  lemma {:induction false} TrimStartAt(s: string, i: nat)
    requires i <= |s| && AllWhitespace(s[..i])
    requires i < |s| ==> !IsWhitespace(s[i])
    ensures TrimStart(s) == s[i..]
    decreases i
  {
    if i > 0 {
      assert s[..i][0] == s[0];
      assert s[1..][..i - 1] == s[..i][1..];
      TrimStartAt(s[1..], i - 1);
    }
  }

  lemma {:induction false} TrimEndAt(s: string, j: nat)
    requires j <= |s| && AllWhitespace(s[j..])
    requires j > 0 ==> !IsWhitespace(s[j - 1])
    ensures TrimEnd(s) == s[..j]
    decreases |s| - j
  {
    if j < |s| {
      assert s[j..][|s| - 1 - j] == s[|s| - 1];
      var p := s[..|s| - 1];
      assert p[j..] == s[j..][..|s| - 1 - j];
      TrimEndAt(p, j);
    }
  }

  /**
   * Trim is characterised by where the text starts and ends: whenever `s[i..j]` is
   * bordered by whitespace only and neither begins nor ends with whitespace, it is `Trim(s)`.
   */
  lemma TrimIsInnerText(s: string, i: nat, j: nat)
    requires i <= j <= |s|
    requires AllWhitespace(s[..i]) && AllWhitespace(s[j..])
    requires i < j ==> !IsWhitespace(s[i]) && !IsWhitespace(s[j - 1])
    ensures Trim(s) == s[i..j]
  {
    if i == j {
      TrimOfWhitespace(s, i);
    } else {
      TrimStartAt(s, i);
      TrimEndOfSuffix(s, i, j);
    }
  }

  lemma TrimEndOfSuffix(s: string, i: nat, j: nat)
    requires i < j <= |s|
    requires AllWhitespace(s[j..]) && !IsWhitespace(s[j - 1])
    ensures TrimEnd(s[i..]) == s[i..j]
  {
    var front := s[i..];
    assert front[j - i..] == s[j..];
    assert front[j - i - 1] == s[j - 1];
    TrimEndAt(front, j - i);
    assert front[..j - i] == s[i..j];
  }

  lemma TrimOfWhitespace(s: string, i: nat)
    requires i <= |s| && AllWhitespace(s[..i]) && AllWhitespace(s[i..])
    ensures Trim(s) == []
  {
    forall m | 0 <= m < |s| ensures IsWhitespace(s[m]) {
      if m < i { assert s[..i][m] == s[m]; } else { assert s[i..][m - i] == s[m]; }
    }
  }

  /** Trimming twice is trimming once. */
  lemma TrimIdempotent(s: string)
    ensures Trim(Trim(s)) == Trim(s)
  {
    var t := Trim(s);
    TrimIsInnerText(t, 0, |t|);
    assert t[..0] == [] && t[|t|..] == [] && t[0..|t|] == t;
  }
}
