/** The JavaScript string built-ins the controllers rely on:
    `String.prototype.trim`, `length` (UTF-16 code units), ASCII
    lower-casing, `Array.prototype.join` and `parseInt(s, 10)`. */
module Text {
  import opened Common

  /** WhiteSpace and LineTerminator code points of ECMAScript: what
      `trim` removes and what `parseInt` skips. */
  predicate IsJsWhitespace(c: char) {
    c == '\t' || c == '\n' || c == '\U{000B}' || c == '\U{000C}' || c == '\r' || c == ' '
    || c == '\U{00A0}' || c == '\U{1680}' || ('\U{2000}' <= c <= '\U{200A}')
    || c == '\U{2028}' || c == '\U{2029}' || c == '\U{202F}' || c == '\U{205F}'
    || c == '\U{3000}' || c == '\U{FEFF}'
  }

  predicate AllWhitespace(s: string) {
    forall i :: 0 <= i < |s| ==> IsJsWhitespace(s[i])
  }

  /** Neither end of `s` is whitespace. */
  predicate IsTrimmed(s: string) {
    s == [] || (!IsJsWhitespace(s[0]) && !IsJsWhitespace(s[|s| - 1]))
  }

  /** `r` is `s` with a whitespace prefix and a whitespace suffix cut off. */
  ghost predicate IsCutOf(s: string, r: string) {
    exists a, b :: 0 <= a <= b <= |s| && r == s[a..b] && AllWhitespace(s[..a]) && AllWhitespace(s[b..])
  }

  function TrimStart(s: string): (r: string)
    ensures |r| <= |s| && r == s[|s| - |r|..]
    ensures AllWhitespace(s[..|s| - |r|])
    ensures r == [] || !IsJsWhitespace(r[0])
  {
    if s != [] && IsJsWhitespace(s[0]) then
      var r := TrimStart(s[1..]);
      assert s[..|s| - |r|] == [s[0]] + s[1..][..|s[1..]| - |r|];
      r
    else
      s
  }

  /** `TrimStart` leaves a string that starts with a non-blank as it is. */
  lemma TrimStartOfUnblank(s: string)
    requires s != [] && !IsJsWhitespace(s[0])
    ensures TrimStart(s) == s
  {
  }

  function TrimEnd(s: string): (r: string)
    ensures |r| <= |s| && r == s[..|r|]
    ensures AllWhitespace(s[|r|..])
    ensures r == [] || !IsJsWhitespace(r[|r| - 1])
  {
    if s != [] && IsJsWhitespace(s[|s| - 1]) then
      var r := TrimEnd(s[..|s| - 1]);
      assert s[|r|..] == s[..|s| - 1][|r|..] + [s[|s| - 1]];
      r
    else
      s
  }

  /** `String.prototype.trim`. */
  function Trim(s: string): (r: string)
    ensures IsTrimmed(r)
    ensures IsCutOf(s, r)
  {
    var t := TrimStart(s);
    TrimIsCut(s);
    assert TrimEnd(t) != [] ==> TrimEnd(t)[0] == t[0];
    TrimEnd(t)
  }

  lemma TrimIsCut(s: string)
    ensures IsCutOf(s, TrimEnd(TrimStart(s)))
  {
    var t := TrimStart(s);
    var r := TrimEnd(t);
    var a := |s| - |t|;
    assert r == s[a..a + |r|];
    assert AllWhitespace(s[a + |r|..]) by {
      assert s[a + |r|..] == t[|r|..];
    }
    assert 0 <= a <= a + |r| <= |s| && AllWhitespace(s[..a]);
  }

  /** Trimming a string that has no whitespace at either end gives it back. */
  lemma TrimOfTrimmed(s: string)
    requires IsTrimmed(s)
    ensures Trim(s) == s
  {
  }

  /** `trim` is idempotent. */
  lemma TrimIdempotent(s: string)
    ensures Trim(Trim(s)) == Trim(s)
  {
    TrimOfTrimmed(Trim(s));
  }

  /** `s.trim() === ""` exactly when `s` is whitespace only (or empty). */
  lemma TrimEmptyIff(s: string)
    ensures Trim(s) == [] <==> AllWhitespace(s)
  {
    var t := TrimStart(s);
    var k := |s| - |t|;
    if t != [] {
      assert t[0] == s[k];
    }
    if TrimEnd(t) == [] {
      assert AllWhitespace(t) by { assert t[0..] == t; }
      assert s == s[..k] + t;
    }
  }

  /** The number of UTF-16 code units of `s`, which is what JavaScript's
      `length` counts: code points above U+FFFF take two. */
  function Utf16Length(s: string): (n: nat)
    ensures |s| <= n <= 2 * |s|
  {
    if s == [] then 0 else (if s[0] as int > 0xFFFF then 2 else 1) + Utf16Length(s[1..])
  }

  /** On the Basic Multilingual Plane, `length` is the number of characters. */
  lemma {:induction false} Utf16LengthOfBmp(s: string)
    requires forall i :: 0 <= i < |s| ==> s[i] as int <= 0xFFFF
    ensures Utf16Length(s) == |s|
  {
    if s != [] {
      Utf16LengthOfBmp(s[1..]);
    }
  }

  function LowerChar(c: char): char {
    if 'A' <= c <= 'Z' then (c as int + 32) as char else c
  }

  /** Lower-casing restricted to ASCII letters. */
  function LowerAscii(s: string): (r: string)
    ensures |r| == |s|
    ensures forall i :: 0 <= i < |s| ==> r[i] == LowerChar(s[i])
  {
    seq(|s|, i requires 0 <= i < |s| => LowerChar(s[i]))
  }

  lemma LowerAsciiSlice(s: string, a: nat, b: nat)
    requires a <= b <= |s|
    ensures LowerAscii(s)[a..b] == LowerAscii(s[a..b])
  {
    var l, t := LowerAscii(s)[a..b], s[a..b];
    forall i | 0 <= i < b - a ensures l[i] == LowerAscii(t)[i] {
      assert l[i] == LowerAscii(s)[a + i] && t[i] == s[a + i];
    }
  }

  /** No upper-case ASCII letter occurs in `s`. */
  predicate NoUpperAscii(s: string) {
    forall i :: 0 <= i < |s| ==> !('A' <= s[i] <= 'Z')
  }

  /** A string without upper-case ASCII letters is its own lower case. */
  lemma LowerAsciiOfLower(s: string)
    requires NoUpperAscii(s)
    ensures LowerAscii(s) == s
  {
  }

  /** Lower-casing leaves no upper-case ASCII letter. */
  lemma LowerAsciiHasNoUpper(s: string)
    ensures NoUpperAscii(LowerAscii(s))
  {
  }

  lemma LowerAsciiIdempotent(s: string)
    ensures LowerAscii(LowerAscii(s)) == LowerAscii(s)
  {
  }

  /** Lower-casing touches letters only, so it keeps a string trimmed. */
  lemma LowerAsciiKeepsTrimmed(s: string)
    requires IsTrimmed(s)
    ensures IsTrimmed(LowerAscii(s))
  {
  }

  /** Lower-casing and `trim` commute: the order in which the `lowercase`
      and `trim` setters of a schema path run does not matter. */
  lemma LowerAsciiTrimCommute(s: string)
    ensures LowerAscii(Trim(s)) == Trim(LowerAscii(s))
  {
    TrimStartLower(s);
    TrimEndLower(TrimStart(s));
  }

  /** Lower-casing changes letters only, never whitespace. */
  lemma LowerCharBlank(c: char)
    ensures IsJsWhitespace(LowerChar(c)) == IsJsWhitespace(c)
  {
  }

  lemma {:induction false} TrimStartLower(s: string)
    ensures TrimStart(LowerAscii(s)) == LowerAscii(TrimStart(s))
  {
    if s != [] {
      var l := LowerAscii(s);
      LowerCharBlank(s[0]);
      if IsJsWhitespace(s[0]) {
        LowerAsciiSlice(s, 1, |s|);
        assert s[1..|s|] == s[1..] && l[1..|s|] == l[1..];
        TrimStartLower(s[1..]);
      }
    }
  }

  lemma {:induction false} TrimEndLower(s: string)
    ensures TrimEnd(LowerAscii(s)) == LowerAscii(TrimEnd(s))
  {
    if s != [] {
      var l := LowerAscii(s);
      LowerCharBlank(s[|s| - 1]);
      if IsJsWhitespace(s[|s| - 1]) {
        LowerAsciiSlice(s, 0, |s| - 1);
        assert s[0..|s| - 1] == s[..|s| - 1] && l[0..|s| - 1] == l[..|s| - 1];
        TrimEndLower(s[..|s| - 1]);
      }
    }
  }

  /** `Array.prototype.join(sep)`. */
  function Join(parts: seq<string>, sep: string): (r: string)
    ensures parts == [] ==> r == []
    ensures |parts| == 1 ==> r == parts[0]
  {
    if parts == [] then []
    else if |parts| == 1 then parts[0]
    else parts[0] + sep + Join(parts[1..], sep)
  }

  /** Appending a part to a non-empty list appends the separator and the part. */
  lemma {:induction false} JoinSnoc(parts: seq<string>, last: string, sep: string)
    requires parts != []
    ensures Join(parts + [last], sep) == Join(parts, sep) + sep + last
  {
    if |parts| == 1 {
      assert (parts + [last])[1..] == [last];
    } else {
      assert (parts + [last])[1..] == parts[1..] + [last];
      JoinSnoc(parts[1..], last, sep);
    }
  }

  predicate IsDigit(c: char) {
    '0' <= c <= '9'
  }

  lemma DigitIsNotBlank(c: char)
    requires IsDigit(c)
    ensures !IsJsWhitespace(c)
  {
  }

  predicate AllDigits(s: string) {
    forall i :: 0 <= i < |s| ==> IsDigit(s[i])
  }

  /** Length of the longest prefix of decimal digits. */
  function DigitPrefix(s: string): (n: nat)
    ensures n <= |s| && AllDigits(s[..n])
    ensures n == |s| || !IsDigit(s[n])
  {
    if s != [] && IsDigit(s[0]) then
      var n := 1 + DigitPrefix(s[1..]);
      assert s[..n] == [s[0]] + s[1..][..n - 1];
      n
    else 0
  }

  /** The value of a string of decimal digits, most significant first. */
  function DigitsValue(s: string): nat
    requires AllDigits(s)
  {
    if s == [] then 0 else 10 * DigitsValue(s[..|s| - 1]) + (s[|s| - 1] as int - '0' as int)
  }

  /** `t` without its leading sign, if any. */
  function Unsigned(t: string): string {
    if t != [] && (t[0] == '-' || t[0] == '+') then t[1..] else t
  }

  /** The value of the leading run of digits of `u`, if there is one. */
  function LeadingDigits(u: string): (r: Option<nat>)
    ensures r.None? <==> (u == [] || !IsDigit(u[0]))
  {
    var n := DigitPrefix(u);
    if n == 0 then None else Some(DigitsValue(u[..n]))
  }

  /** `parseInt(s, 10)` on a string; `None` stands for NaN. Leading
      whitespace is skipped, one sign is read, then the longest run of
      digits; anything after it is ignored. */
  function ParseInt(s: string): (r: Option<int>)
    ensures var u := Unsigned(TrimStart(s)); r.None? <==> (u == [] || !IsDigit(u[0]))
  {
    var t := TrimStart(s);
    var negative := t != [] && t[0] == '-';
    match LeadingDigits(Unsigned(t))
    case None => None
    case Some(v) => Some(if negative then -(v as int) else v)
  }

  function DigitChar(d: nat): (c: char)
    requires d < 10
    ensures IsDigit(c) && c as int - '0' as int == d
  {
    ('0' as int + d) as char
  }

  /** The decimal rendering of `n`, as `String(n)` writes it. */
  function Decimal(n: nat): (s: string)
    ensures s != [] && AllDigits(s)
  {
    if n < 10 then [DigitChar(n)] else Decimal(n / 10) + [DigitChar(n % 10)]
  }

  lemma {:induction false} DecimalValue(n: nat)
    ensures DigitsValue(Decimal(n)) == n
  {
    if n >= 10 {
      var s := Decimal(n);
      assert s[..|s| - 1] == Decimal(n / 10);
      DecimalValue(n / 10);
    }
  }

  /** `parseInt` reads a run of digits as its value. */
  lemma ParseIntOfDigits(d: string)
    requires d != [] && AllDigits(d)
    ensures ParseInt(d) == Some(DigitsValue(d) as int)
  {
    DigitIsNotBlank(d[0]);
    TrimStartOfUnblank(d);
    assert Unsigned(d) == d;
    LeadingDigitsOfDigits(d);
  }

  /** `parseInt` reads a minus sign followed by digits as the negated value. */
  lemma ParseIntOfNegative(t: string)
    requires |t| > 1 && t[0] == '-' && AllDigits(t[1..])
    ensures ParseInt(t) == Some(-(DigitsValue(t[1..]) as int))
  {
    TrimStartOfUnblank(t);
    assert Unsigned(t) == t[1..];
    LeadingDigitsOfDigits(t[1..]);
  }

  lemma LeadingDigitsOfDigits(d: string)
    requires d != [] && AllDigits(d)
    ensures LeadingDigits(d) == Some(DigitsValue(d))
  {
    DigitPrefixOfDigits(d);
    assert d[..|d|] == d;
  }

  /** `parseInt` reads back what `String` wrote, for every natural number. */
  lemma ParseIntRoundTrip(n: nat)
    ensures ParseInt(Decimal(n)) == Some(n)
  {
    ParseIntOfDigits(Decimal(n));
    DecimalValue(n);
  }

  lemma {:induction false} DigitPrefixOfDigits(s: string)
    requires AllDigits(s)
    ensures DigitPrefix(s) == |s|
  {
    if s != [] {
      DigitPrefixOfDigits(s[1..]);
    }
  }
}
