/** The JavaScript string operations the handlers rely on: `trim`, `toLowerCase`, `startsWith`
    and taking the second field of `split(' ')`. */
module Text {
  import opened Wrappers

  /** The WhiteSpace and LineTerminator code points of ECMA-262 (sections 12.2 and 12.3),
      which `String.prototype.trim` removes from both ends. */
  predicate IsWhitespace(c: char) {
    || c == ' ' || c == '\t' || c == '\n' || c == '\r' || c == '\U{000B}' || c == '\U{000C}'
    || c == '\U{00A0}' || c == '\U{1680}' || ('\U{2000}' <= c <= '\U{200A}')
    || c == '\U{2028}' || c == '\U{2029}' || c == '\U{202F}' || c == '\U{205F}'
    || c == '\U{3000}' || c == '\U{FEFF}'
  }

  /** Every character is whitespace: `!s.trim()` holds exactly for these strings. */
  predicate Blank(s: string) {
    forall i :: 0 <= i < |s| ==> IsWhitespace(s[i])
  }

  /** Neither end is whitespace: what `trim` returns. */
  predicate Trimmed(s: string) {
    s == [] || (!IsWhitespace(s[0]) && !IsWhitespace(s[|s| - 1]))
  }

  /** Drops leading whitespace: the result is a suffix of `s` and only whitespace was dropped. */
  function TrimStart(s: string): (r: string)
    ensures |r| <= |s| && r == s[|s| - |r|..]
    ensures Blank(s[..|s| - |r|])
    ensures r == [] || !IsWhitespace(r[0])
  {
    if s != [] && IsWhitespace(s[0]) then
      var r := TrimStart(s[1..]);
      assert s[..|s| - |r|] == [s[0]] + s[1..][..|s| - 1 - |r|];
      r
    else s
  }

  /** Drops trailing whitespace: the result is a prefix of `s` and only whitespace was dropped. */
  function TrimEnd(s: string): (r: string)
    ensures |r| <= |s| && r == s[..|r|]
    ensures Blank(s[|r|..])
    ensures r == [] || !IsWhitespace(r[|r| - 1])
  {
    if s != [] && IsWhitespace(s[|s| - 1]) then
      var r := TrimEnd(s[..|s| - 1]);
      assert s[|r|..] == s[..|s| - 1][|r|..] + [s[|s| - 1]];
      r
    else s
  }

  /** `String.prototype.trim`. */
  function Trim(s: string): (r: string)
    ensures Trimmed(r)
    ensures |r| <= |s|
  {
    TrimEnd(TrimStart(s))
  }

  /** A string whose ends are not whitespace is left as it is by `trim`. */
  lemma TrimOfTrimmed(s: string)
    requires Trimmed(s)
    ensures Trim(s) == s
  {
    assert TrimStart(s) == s;
  }

  /** `trim` is idempotent. */
  lemma TrimIdempotent(s: string)
    ensures Trim(Trim(s)) == Trim(s)
  {
    TrimOfTrimmed(Trim(s));
  }

  /** `s.trim()` is empty exactly when `s` is whitespace only. */
  lemma TrimEmptyIffBlank(s: string)
    ensures Trim(s) == "" <==> Blank(s)
  {
    var t := TrimStart(s);
    if Trim(s) == "" {
      assert Blank(t[0..]);
      assert t == [];
      assert s[..|s|] == s;
    }
  }

  /** `String.prototype.toLowerCase` on the ASCII letters; every other character is kept. */
  function LowerChar(c: char): char {
    if 'A' <= c <= 'Z' then (c as int + 32) as char else c
  }

  function ToLower(s: string): (r: string)
    ensures |r| == |s|
    ensures forall i :: 0 <= i < |s| ==> r[i] == LowerChar(s[i])
  {
    if s == [] then [] else [LowerChar(s[0])] + ToLower(s[1..])
  }

  /** No ASCII capital letter: what `toLowerCase` leaves of a string, as far as it is modelled. */
  predicate NoAsciiUpper(s: string) {
    forall i :: 0 <= i < |s| ==> !('A' <= s[i] <= 'Z')
  }

  /** A normalised email: no whitespace at either end and no capital letter. */
  predicate EmailNormalized(e: string) {
    Trimmed(e) && NoAsciiUpper(e)
  }

  /** Lowering keeps a character's whitespace class and leaves no capital letter. */
  lemma LowerCharFacts(c: char)
    ensures IsWhitespace(LowerChar(c)) == IsWhitespace(c)
    ensures !('A' <= LowerChar(c) <= 'Z')
    ensures LowerChar(LowerChar(c)) == LowerChar(c)
  {
  }

  /** The email normalisation of registration and login: `email.trim().toLowerCase()`. */
  function NormalizeEmail(email: string): (r: string)
    ensures EmailNormalized(r)
  {
    LoweredTrimIsNormalized(Trim(email));
    ToLower(Trim(email))
  }

  lemma LoweredTrimIsNormalized(t: string)
    requires Trimmed(t)
    ensures EmailNormalized(ToLower(t))
  {
    var r := ToLower(t);
    if r != [] {
      LowerCharFacts(t[0]);
      LowerCharFacts(t[|t| - 1]);
    }
    forall i | 0 <= i < |r| ensures !('A' <= r[i] <= 'Z') {
      LowerCharFacts(t[i]);
    }
  }

  /** A normalised email is left as it is by the normalisation. */
  lemma NormalizedIsFixed(e: string)
    requires EmailNormalized(e)
    ensures NormalizeEmail(e) == e
  {
    TrimOfTrimmed(e);
    assert ToLower(e) == e;
  }

  /** Normalising an email twice changes nothing, so a stored email is a fixed point of the
      normalisation (the schema's own `lowercase` and `trim` setters leave it as it is). */
  lemma NormalizeEmailIdempotent(email: string)
    ensures NormalizeEmail(NormalizeEmail(email)) == NormalizeEmail(email)
  {
    NormalizedIsFixed(NormalizeEmail(email));
  }

  /** A normalised email is empty exactly when the input was whitespace only. */
  lemma NormalizeEmailEmptyIffBlank(email: string)
    ensures NormalizeEmail(email) == "" <==> Blank(email)
  {
    TrimEmptyIffBlank(email);
  }

  predicate StartsWith(s: string, prefix: string) {
    |prefix| <= |s| && s[..|prefix|] == prefix
  }

  /** The first field of `s.split(' ')`: everything before the first space. */
  function UpToSpace(s: string): (r: string)
    ensures |r| <= |s| && r == s[..|r|]
    ensures ' ' !in r
    ensures |r| == |s| || s[|r|] == ' '
  {
    if s == [] || s[0] == ' ' then [] else [s[0]] + UpToSpace(s[1..])
  }

  /** The scheme prefix that section 2.1 of RFC 6750 puts before a bearer token. */
  const BearerScheme: string := "Bearer "

  /** The token of an `Authorization` header: absent unless the header starts with `Bearer `,
      and otherwise `header.split(' ')[1]`, the text between the first and the second space. */
  function BearerToken(header: Option<string>): (r: Option<string>)
    ensures r.Some? <==> header.Some? && StartsWith(header.value, BearerScheme)
    ensures r.Some? ==> ' ' !in r.value && StartsWith(header.value[|BearerScheme|..], r.value)
    // The token runs up to the first space after the scheme, or to the end of the header.
    ensures r.Some? ==> |BearerScheme| + |r.value| == |header.value|
                        || header.value[|BearerScheme| + |r.value|] == ' '
  {
    if header.Some? && StartsWith(header.value, BearerScheme)
    then Some(UpToSpace(header.value[|BearerScheme|..]))
    else None
  }

  /** A header built as `Bearer <token>` from a token without spaces yields that token back. */
  lemma {:induction false} BearerTokenRoundTrip(token: string)
    requires ' ' !in token
    ensures BearerToken(Some(BearerScheme + token)) == Some(token)
  {
    var h := BearerScheme + token;
    assert h[..|BearerScheme|] == BearerScheme;
    assert h[|BearerScheme|..] == token;
    var r := UpToSpace(token);
    assert forall i :: 0 <= i < |token| ==> token[i] != ' ';
    assert token[..|token|] == token;
  }

  /** Leading whitespace is dropped whatever follows it. */
  lemma {:induction false} TrimStartBlankPrefix(p: string, x: string)
    requires Blank(p)
    ensures TrimStart(p + x) == TrimStart(x)
    decreases |p|
  {
    if p != [] {
      assert (p + x)[0] == p[0] && (p + x)[1..] == p[1..] + x;
      TrimStartBlankPrefix(p[1..], x);
    } else {
      assert p + x == x;
    }
  }

  /** Trailing whitespace is dropped whatever precedes it. */
  lemma {:induction false} TrimEndBlankSuffix(x: string, q: string)
    requires Blank(q)
    ensures TrimEnd(x + q) == TrimEnd(x)
    decreases |q|
  {
    if q != [] {
      var n := |x + q|;
      assert (x + q)[n - 1] == q[|q| - 1] && (x + q)[..n - 1] == x + q[..|q| - 1];
      TrimEndBlankSuffix(x, q[..|q| - 1]);
    } else {
      assert x + q == x;
    }
  }

  /** Dropping leading whitespace of a string that is not blank does not reach what follows. */
  lemma {:induction false} TrimStartOfAppend(e: string, q: string)
    requires !Blank(e)
    ensures TrimStart(e + q) == TrimStart(e) + q
    decreases |e|
  {
    assert (e + q)[0] == e[0];
    if IsWhitespace(e[0]) {
      assert (e + q)[1..] == e[1..] + q;
      TrimStartOfAppend(e[1..], q);
    }
  }

  /** A string of whitespace only is dropped entirely. */
  lemma {:induction false} TrimStartOfBlank(s: string)
    requires Blank(s)
    ensures TrimStart(s) == []
    decreases |s|
  {
    if s != [] {
      TrimStartOfBlank(s[1..]);
    }
  }

  /** `trim` removes whitespace added around a string. */
  lemma TrimIgnoresPadding(p: string, e: string, q: string)
    requires Blank(p) && Blank(q)
    ensures Trim(p + e + q) == Trim(e)
  {
    assert p + e + q == p + (e + q);
    TrimStartBlankPrefix(p, e + q);
    if Blank(e) {
      TrimStartBlankPrefix(e, q);
      TrimStartOfBlank(q);
      TrimStartOfBlank(e);
    } else {
      TrimStartOfAppend(e, q);
      TrimEndBlankSuffix(TrimStart(e), q);
    }
  }

  /** Whitespace around an email does not change its normalised form, so `" a@b.io"` and
      `"a@b.io "` collide with `"a@b.io"`. */
  lemma NormalizeEmailIgnoresPadding(p: string, e: string, q: string)
    requires Blank(p) && Blank(q)
    ensures NormalizeEmail(p + e + q) == NormalizeEmail(e)
  {
    TrimIgnoresPadding(p, e, q);
  }

  /** Lowering and dropping leading whitespace commute. */
  lemma {:induction false} TrimStartLower(e: string)
    ensures TrimStart(ToLower(e)) == ToLower(TrimStart(e))
    decreases |e|
  {
    if e != [] {
      LowerCharFacts(e[0]);
      TrimStartLower(e[1..]);
    }
  }

  /** Lowering and dropping trailing whitespace commute. */
  lemma {:induction false} TrimEndLower(e: string)
    ensures TrimEnd(ToLower(e)) == ToLower(TrimEnd(e))
    decreases |e|
  {
    if e != [] {
      var n := |e|;
      LowerCharFacts(e[n - 1]);
      assert ToLower(e)[..n - 1] == ToLower(e[..n - 1]);
      TrimEndLower(e[..n - 1]);
    }
  }

  /** Emails that differ only in the case of ASCII letters normalise to the same string, so
      `"Al@X.io"` and `"al@x.io"` collide. */
  lemma NormalizeEmailIgnoresCase(e1: string, e2: string)
    requires ToLower(e1) == ToLower(e2)
    ensures NormalizeEmail(e1) == NormalizeEmail(e2)
  {
    TrimStartLower(e1);
    TrimEndLower(TrimStart(e1));
    TrimStartLower(e2);
    TrimEndLower(TrimStart(e2));
    ToLowerIdempotent(Trim(e1));
    ToLowerIdempotent(Trim(e2));
  }

  lemma ToLowerIdempotent(s: string)
    ensures ToLower(ToLower(s)) == ToLower(s)
  {
    forall i | 0 <= i < |s| ensures LowerChar(LowerChar(s[i])) == LowerChar(s[i]) {
      LowerCharFacts(s[i]);
    }
  }
}
