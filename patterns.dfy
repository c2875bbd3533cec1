/** The two regular expressions of the user schema and the registration
    validator, written as predicates over strings. Each predicate follows
    its regular expression: a `+` or `*` group becomes a recursive
    predicate, a choice of split point becomes an `exists`. */
module Patterns {
  import opened Text

  /** `\w` of a JavaScript regular expression without the `u` flag. */
  predicate IsWordChar(c: char) {
    'a' <= c <= 'z' || 'A' <= c <= 'Z' || '0' <= c <= '9' || c == '_'
  }

  /** `[.-]` */
  predicate IsJoiner(c: char) {
    c == '.' || c == '-'
  }

  predicate AllWord(s: string) {
    forall i :: 0 <= i < |s| ==> IsWordChar(s[i])
  }

  /** `\w+([.-]?\w+)*`, which is the same language as `\w([.-]?\w)*`. */
  predicate WordRun(s: string)
    decreases |s|
  {
    |s| > 0 && IsWordChar(s[0]) &&
    (|s| == 1 || WordRun(s[1..]) || (IsJoiner(s[1]) && WordRun(s[2..])))
  }

  /** `(\.\w{2,})+` */
  predicate TopLevelLabels(s: string)
    decreases |s|
  {
    |s| >= 3 && s[0] == '.' &&
    exists k :: 3 <= k <= |s| && AllWord(s[1..k]) && (k == |s| || TopLevelLabels(s[k..]))
  }

  /** `\w+([.-]?\w+)*(\.\w{2,})+` */
  predicate DomainPart(s: string) {
    exists j :: 0 < j < |s| && WordRun(s[..j]) && TopLevelLabels(s[j..])
  }

  /** `/^\w+([.-]?\w+)*@\w+([.-]?\w+)*(\.\w{2,})+$/`, the email pattern
      shared by userModel.js and validationMiddleware.js. */
  predicate EmailPattern(s: string) {
    exists i :: 0 < i < |s| && s[i] == '@' && WordRun(s[..i]) && DomainPart(s[i + 1..])
  }

  /** `s` and `t` differ at most by one word character standing for another. */
  predicate SameShape(s: string, t: string) {
    |s| == |t| &&
    forall i :: 0 <= i < |s| ==> s[i] == t[i] || (IsWordChar(s[i]) && IsWordChar(t[i]))
  }

  lemma {:induction false} WordRunShape(s: string, t: string)
    requires SameShape(s, t) && WordRun(s)
    ensures WordRun(t)
    decreases |s|
  {
    if |s| > 1 {
      if WordRun(s[1..]) {
        WordRunShape(s[1..], t[1..]);
      } else {
        WordRunShape(s[2..], t[2..]);
      }
    }
  }

  lemma {:induction false} TopLevelLabelsShape(s: string, t: string)
    requires SameShape(s, t) && TopLevelLabels(s)
    ensures TopLevelLabels(t)
    decreases |s|
  {
    var k :| 3 <= k <= |s| && AllWord(s[1..k]) && (k == |s| || TopLevelLabels(s[k..]));
    forall i | 0 <= i < k - 1 ensures IsWordChar(t[1..k][i]) {
      assert s[1..k][i] == s[i + 1] && t[1..k][i] == t[i + 1];
    }
    if k < |s| {
      SameShapeSuffix(s, t, k);
      TopLevelLabelsShape(s[k..], t[k..]);
    }
  }

  lemma SameShapeSlice(s: string, t: string, a: nat, b: nat)
    requires SameShape(s, t) && a <= b <= |s|
    ensures SameShape(s[a..b], t[a..b])
  {
    forall i | 0 <= i < b - a
      ensures s[a..b][i] == t[a..b][i] || (IsWordChar(s[a..b][i]) && IsWordChar(t[a..b][i]))
    {
      assert s[a..b][i] == s[a + i] && t[a..b][i] == t[a + i];
    }
  }

  lemma SameShapePrefix(s: string, t: string, a: nat)
    requires SameShape(s, t) && a <= |s|
    ensures SameShape(s[..a], t[..a])
  {
    SameShapeSlice(s, t, 0, a);
    assert s[0..a] == s[..a] && t[0..a] == t[..a];
  }

  lemma SameShapeSuffix(s: string, t: string, a: nat)
    requires SameShape(s, t) && a <= |s|
    ensures SameShape(s[a..], t[a..])
  {
    SameShapeSlice(s, t, a, |s|);
    assert s[a..|s|] == s[a..] && t[a..|t|] == t[a..];
  }

  lemma DomainPartShape(d: string, e: string)
    requires SameShape(d, e) && DomainPart(d)
    ensures DomainPart(e)
  {
    var j :| 0 < j < |d| && WordRun(d[..j]) && TopLevelLabels(d[j..]);
    SameShapePrefix(d, e, j);
    WordRunShape(d[..j], e[..j]);
    SameShapeSuffix(d, e, j);
    TopLevelLabelsShape(d[j..], e[j..]);
  }

  lemma EmailPatternShape(s: string, t: string)
    requires SameShape(s, t) && EmailPattern(s)
    ensures EmailPattern(t)
  {
    var i :| 0 < i < |s| && s[i] == '@' && WordRun(s[..i]) && DomainPart(s[i + 1..]);
    SameShapePrefix(s, t, i);
    WordRunShape(s[..i], t[..i]);
    SameShapeSuffix(s, t, i + 1);
    DomainPartShape(s[i + 1..], t[i + 1..]);
    assert t[i] == '@';
  }

  /** Lower-casing an email (the schema's `lowercase: true` setter) does
      not change whether it matches the pattern, in either direction. */
  lemma EmailPatternIgnoresCase(s: string)
    ensures EmailPattern(LowerAscii(s)) <==> EmailPattern(s)
  {
    var t := LowerAscii(s);
    if EmailPattern(s) {
      EmailPatternShape(s, t);
    }
    if EmailPattern(t) {
      EmailPatternShape(t, s);
    }
  }

  /** The characters a matching email can contain. */
  predicate IsEmailChar(c: char) {
    IsWordChar(c) || IsJoiner(c) || c == '@'
  }

  lemma {:induction false} WordRunChars(s: string)
    requires WordRun(s)
    ensures forall i :: 0 <= i < |s| ==> IsWordChar(s[i]) || IsJoiner(s[i])
    decreases |s|
  {
    if |s| > 1 {
      if WordRun(s[1..]) {
        WordRunChars(s[1..]);
      } else {
        WordRunChars(s[2..]);
      }
    }
  }

  lemma {:induction false} TopLevelLabelsChars(s: string)
    requires TopLevelLabels(s)
    ensures forall i :: 0 <= i < |s| ==> IsWordChar(s[i]) || IsJoiner(s[i])
    decreases |s|
  {
    var k :| 3 <= k <= |s| && AllWord(s[1..k]) && (k == |s| || TopLevelLabels(s[k..]));
    if k < |s| {
      TopLevelLabelsChars(s[k..]);
      assert forall i :: k <= i < |s| ==> s[i] == s[k..][i - k];
    }
    assert forall i :: 1 <= i < k ==> s[i] == s[1..k][i - 1];
  }

  predicate AllEmailChars(s: string) {
    forall i :: 0 <= i < |s| ==> IsEmailChar(s[i])
  }

  lemma EmailCharsConcat(a: string, b: string)
    requires AllEmailChars(a) && AllEmailChars(b)
    ensures AllEmailChars(a + b)
  {
    forall i | 0 <= i < |a + b| ensures IsEmailChar((a + b)[i]) {
      if i >= |a| {
        assert (a + b)[i] == b[i - |a|];
      }
    }
  }

  /** An email cut at its `@` and at the start of its top-level labels. */
  lemma EmailCharsOfParts(s: string, i: nat, j: nat)
    requires 0 < i < |s| && s[i] == '@' && j <= |s| - i - 1
    requires AllEmailChars(s[..i]) && AllEmailChars(s[i + 1..][..j]) && AllEmailChars(s[i + 1..][j..])
    ensures AllEmailChars(s)
  {
    var d := s[i + 1..];
    EmailCharsConcat(d[..j], d[j..]);
    assert d[..j] + d[j..] == d;
    EmailCharsConcat([s[i]], d);
    assert [s[i]] + d == s[i..];
    EmailCharsConcat(s[..i], s[i..]);
    assert s[..i] + s[i..] == s;
  }

  /** A matching email holds word characters, `.`, `-` and `@` only. */
  lemma EmailPatternChars(s: string)
    requires EmailPattern(s)
    ensures AllEmailChars(s)
  {
    var i :| 0 < i < |s| && s[i] == '@' && WordRun(s[..i]) && DomainPart(s[i + 1..]);
    var d := s[i + 1..];
    var j :| 0 < j < |d| && WordRun(d[..j]) && TopLevelLabels(d[j..]);
    WordRunChars(s[..i]);
    assert AllEmailChars(s[..i]);
    WordRunChars(d[..j]);
    assert AllEmailChars(d[..j]);
    TopLevelLabelsChars(d[j..]);
    assert AllEmailChars(d[j..]);
    EmailCharsOfParts(s, i, j);
  }

  /** A matching email has no whitespace, so the schema's `trim: true`
      leaves it as it is. */
  lemma EmailPatternIsTrimmed(s: string)
    requires EmailPattern(s)
    ensures IsTrimmed(s) && Trim(s) == s
  {
    EmailPatternChars(s);
    TrimOfTrimmed(s);
  }

  lemma EmailPatternExample()
    ensures EmailPattern("alice@x.com")
  {
    var s := "alice@x.com";
    assert WordRun("e") && WordRun("ce") && WordRun("ice") && WordRun("lice");
    assert WordRun(s[..5]) by { assert s[..5] == "alice"; }
    var d := s[6..];
    assert d == "x.com";
    assert TopLevelLabels(d[1..]) by {
      assert d[1..] == ".com";
      assert AllWord(d[1..][1..4]);
    }
    assert WordRun(d[..1]);
    assert DomainPart(d);
  }

  /** A one-letter top-level label does not match `\.\w{2,}`. */
  lemma EmailPatternRejectsShortTld()
    ensures !EmailPattern("al@x.c")
  {
    var s := "al@x.c";
    forall i | 0 < i < |s| && s[i] == '@'
      ensures !DomainPart(s[i + 1..])
    {
      assert i == 2;
      var d := s[3..];
      assert d == "x.c";
      forall j | 0 < j < |d| ensures !(WordRun(d[..j]) && TopLevelLabels(d[j..])) {
        if j == 1 {
          assert |d[j..]| == 2;
        } else {
          assert d[..j] == "x.";
          assert !WordRun(".");
        }
      }
    }
  }

  const Schemes: seq<string> := ["http://", "https://"]
  const ImageExtensions: seq<string> := ["png", "jpg", "jpeg", "gif", "webp", "svg", "bmp", "tif", "tiff"]

  /** What `.` refuses to match. */
  predicate IsLineTerminator(c: char) {
    c == '\n' || c == '\r' || c == '\U{2028}' || c == '\U{2029}'
  }

  /** `v` is `scheme`, then any characters but line terminators, then `.`
      and `ext`, the scheme and the extension compared case-insensitively. */
  predicate PictureUrlSplit(v: string, scheme: string, ext: string) {
    |v| >= |scheme| + 1 + |ext| &&
    LowerAscii(v[..|scheme|]) == scheme &&
    v[|v| - |ext| - 1] == '.' &&
    LowerAscii(v[|v| - |ext|..]) == ext &&
    NoLineTerminator(v, |scheme|, |v| - |ext| - 1)
  }

  predicate NoLineTerminator(v: string, a: nat, b: nat)
    requires a <= b <= |v|
  {
    forall i :: a <= i < b ==> !IsLineTerminator(v[i])
  }

  /** `/^(https?:\/\/.*\.(?:png|jpg|jpeg|gif|webp|svg|bmp|tiff?))$/i` */
  predicate PictureUrlPattern(v: string) {
    exists scheme, ext | scheme in Schemes && ext in ImageExtensions :: PictureUrlSplit(v, scheme, ext)
  }

  lemma LowerSliceIdempotent(v: string, a: nat, b: nat)
    requires a <= b <= |v|
    ensures LowerAscii(LowerAscii(v)[a..b]) == LowerAscii(v[a..b])
  {
    LowerAsciiSlice(v, a, b);
    LowerAsciiIdempotent(v[a..b]);
  }

  lemma PictureUrlSplitIgnoresCase(v: string, scheme: string, ext: string)
    ensures PictureUrlSplit(LowerAscii(v), scheme, ext) <==> PictureUrlSplit(v, scheme, ext)
  {
    var w := LowerAscii(v);
    if |v| >= |scheme| + 1 + |ext| {
      var n, m := |scheme|, |v| - |ext|;
      assert LowerAscii(w[..n]) == LowerAscii(v[..n]) by {
        LowerSliceIdempotent(v, 0, n);
        assert w[..n] == w[0..n] && v[..n] == v[0..n];
      }
      assert LowerAscii(w[m..]) == LowerAscii(v[m..]) by {
        LowerSliceIdempotent(v, m, |v|);
        assert w[m..] == w[m..|v|] && v[m..] == v[m..|v|];
      }
      assert w[m - 1] == '.' <==> v[m - 1] == '.' by {
        assert w[m - 1] == LowerChar(v[m - 1]);
      }
      assert NoLineTerminator(w, n, m - 1) <==> NoLineTerminator(v, n, m - 1) by {
        assert forall i :: n <= i < m - 1 ==> w[i] == LowerChar(v[i]);
      }
    }
  }

  /** The `i` flag: the picture URL pattern does not depend on letter case. */
  lemma PictureUrlIgnoresCase(v: string)
    ensures PictureUrlPattern(LowerAscii(v)) <==> PictureUrlPattern(v)
  {
    forall scheme, ext | scheme in Schemes && ext in ImageExtensions
      ensures PictureUrlSplit(LowerAscii(v), scheme, ext) <==> PictureUrlSplit(v, scheme, ext)
    {
      PictureUrlSplitIgnoresCase(v, scheme, ext);
    }
  }

  lemma PictureUrlAcceptsUpperCaseExtension()
    ensures PictureUrlPattern("https://cdn.example.com/me.PNG")
  {
    var v := "https://cdn.example.com/me.PNG";
    assert LowerAscii(v[..8]) == "https://" by {
      assert v[..8] == "https://";
      LowerAsciiOfLower("https://");
    }
    assert LowerAscii(v[|v| - 3..]) == "png" by {
      assert v[|v| - 3..] == "PNG";
      assert LowerChar('P') == 'p' && LowerChar('N') == 'n' && LowerChar('G') == 'g';
    }
    assert NoLineTerminator(v, 8, |v| - 4);
    assert PictureUrlSplit(v, "https://", "png");
    assert "https://" in Schemes && "png" in ImageExtensions;
  }

  lemma PictureUrlRejectsOtherSchemes()
    ensures !PictureUrlPattern("ftp://cdn.example.com/me.png")
  {
    var f := "ftp://cdn.example.com/me.png";
    forall scheme, ext | scheme in Schemes && ext in ImageExtensions
      ensures !PictureUrlSplit(f, scheme, ext)
    {
      assert scheme[0] == 'h';
      assert LowerAscii(f[..|scheme|])[0] == LowerChar(f[0]) == 'f';
    }
  }
}
