/**
 * The JavaScript string operations the client relies on, with ECMAScript's
 * meaning: `trim()`, the regular-expression class `\s`, `toLowerCase()`,
 * `includes()` and the decimal rendering of a row number in a template string.
 */
module Text {

  /** ECMAScript WhiteSpace and LineTerminator code points: the set removed by
      `String.prototype.trim` and matched by the regular-expression class `\s`. */
  predicate IsWhitespace(c: char)
  {
    c in WhitespaceChars || '\U{2000}' <= c <= '\U{200A}'
  }

  const WhitespaceChars: set<char> :=
    {'\t', '\n', '\U{000B}', '\U{000C}', '\r', ' ', '\U{00A0}', '\U{1680}',
     '\U{2028}', '\U{2029}', '\U{202F}', '\U{205F}', '\U{3000}', '\U{FEFF}'}

  predicate AllWhitespace(s: string)
  {
    forall k :: 0 <= k < |s| ==> IsWhitespace(s[k])
  }

  predicate NoWhitespace(s: string)
  {
    forall k :: 0 <= k < |s| ==> !IsWhitespace(s[k])
  }

  /** `s` neither starts nor ends with white space. */
  predicate Trimmed(s: string)
  {
    s == [] || (!IsWhitespace(s[0]) && !IsWhitespace(s[|s| - 1]))
  }

  /** Drops the leading white space (`TrimStartSlice` says what is dropped). */
  function TrimStart(s: string): (r: string)
    ensures |r| <= |s|
    ensures r == [] || !IsWhitespace(r[0])
  {
    if |s| > 0 && IsWhitespace(s[0]) then TrimStart(s[1..]) else s
  }

  /** Drops the trailing white space (`TrimEndSlice` says what is dropped). */
  function TrimEnd(s: string): (r: string)
    ensures |r| <= |s|
    ensures r == [] || (r[0] == s[0] && !IsWhitespace(r[|r| - 1]))
  {
    if |s| > 0 && IsWhitespace(s[|s| - 1]) then TrimEnd(s[..|s| - 1]) else s
  }

  /** What `TrimStart` keeps is a suffix of `s`, and everything it drops is white
      space. */
  lemma {:induction false} TrimStartSlice(s: string)
    ensures var r := TrimStart(s);
            r == s[|s| - |r|..] && AllWhitespace(s[..|s| - |r|])
  {
    if |s| > 0 && IsWhitespace(s[0]) {
      TrimStartSlice(s[1..]);
      var r := TrimStart(s[1..]);
      assert s[..|s| - |r|] == [s[0]] + s[1..][..|s| - 1 - |r|];
    }
  }

  /** What `TrimEnd` keeps is a prefix of `s`, and everything it drops is white
      space. */
  lemma {:induction false} TrimEndSlice(s: string)
    ensures var r := TrimEnd(s);
            r == s[..|r|] && AllWhitespace(s[|r|..])
  {
    if |s| > 0 && IsWhitespace(s[|s| - 1]) {
      TrimEndSlice(s[..|s| - 1]);
      var r := TrimEnd(s[..|s| - 1]);
      assert s[|r|..] == s[..|s| - 1][|r|..] + [s[|s| - 1]];
    }
  }

  /** `String.prototype.trim`: the result is the slice of `s` left once the white
      space at both ends is cut away, and it has none left at either end. */
  function Trim(s: string): (r: string)
    ensures Trimmed(r)
    ensures |r| <= |s|
  {
    TrimEnd(TrimStart(s))
  }

  /** What `trim` keeps is the slice of `s` left once the white space at both ends
      is cut away. */
  lemma TrimIsSlice(s: string)
    ensures var r, i := Trim(s), |s| - |TrimStart(s)|;
            i + |r| <= |s| && s[i..i + |r|] == r && AllWhitespace(s[..i]) && AllWhitespace(s[i + |r|..])
  {
    TrimStartSlice(s);
    var a := TrimStart(s);
    TrimEndSlice(a);
    SliceOfSuffix(s, a, TrimEnd(a));
  }

  /** A prefix `r` of a suffix `a` of `s`, framed by white space on both sides, is
      a slice of `s` framed by white space in `s`. */
  lemma SliceOfSuffix(s: string, a: string, r: string)
    requires |a| <= |s| && a == s[|s| - |a|..] && AllWhitespace(s[..|s| - |a|])
    requires |r| <= |a| && r == a[..|r|] && AllWhitespace(a[|r|..])
    ensures var i := |s| - |a|;
            s[i..i + |r|] == r && AllWhitespace(s[..i]) && AllWhitespace(s[i + |r|..])
  {
    var i := |s| - |a|;
    assert s[i..i + |r|] == a[..|r|];
    assert s[i + |r|..] == a[|r|..];
  }

  /** Trimming leaves an already trimmed string alone. */
  lemma TrimOfTrimmed(s: string)
    requires Trimmed(s)
    ensures Trim(s) == s
  {
  }

  /** Trimming twice is trimming once. */
  lemma TrimIdempotent(s: string)
    ensures Trim(Trim(s)) == Trim(s)
  {
    TrimOfTrimmed(Trim(s));
  }

  /** Only the white space at the two ends of a string decides what `trim` keeps:
      any string framed by white space trims to its trimmed core. */
  lemma {:induction false} TrimFramed(pre: string, core: string, post: string)
    requires AllWhitespace(pre) && AllWhitespace(post) && Trimmed(core) && core != []
    ensures Trim(pre + core + post) == core
  {
    TrimStartFramed(pre, core + post);
    assert TrimStart(pre + core + post) == core + post by {
      assert pre + core + post == pre + (core + post);
    }
    TrimEndFramed(core, post);
  }

  lemma {:induction false} TrimStartFramed(pre: string, rest: string)
    requires AllWhitespace(pre) && rest != [] && !IsWhitespace(rest[0])
    ensures TrimStart(pre + rest) == rest
  {
    if pre != [] {
      assert (pre + rest)[1..] == pre[1..] + rest;
      TrimStartFramed(pre[1..], rest);
    }
  }

  lemma {:induction false} TrimEndFramed(rest: string, post: string)
    requires AllWhitespace(post) && rest != [] && !IsWhitespace(rest[|rest| - 1])
    ensures TrimEnd(rest + post) == rest
  {
    if post != [] {
      assert (rest + post)[..|rest + post| - 1] == rest + post[..|post| - 1];
      TrimEndFramed(rest, post[..|post| - 1]);
    } else {
      assert rest + post == rest;
    }
  }

  predicate IsUpperAscii(c: char)
  {
    'A' <= c <= 'Z'
  }

  function LowerChar(c: char): char
  {
    if IsUpperAscii(c) then (c as int + 32) as char else c
  }

  /** `String.prototype.toLowerCase` on the ASCII letters: the result has the same
      length, contains no upper-case ASCII letter, and differs from `s` only where
      `s` holds an upper-case ASCII letter, which becomes its lower-case partner. */
  function ToLower(s: string): (r: string)
    ensures |r| == |s|
    ensures forall k :: 0 <= k < |r| ==> !IsUpperAscii(r[k])
    ensures forall k :: 0 <= k < |s| && s[k] != r[k] ==>
              IsUpperAscii(s[k]) && r[k] as int == s[k] as int + 32
  {
    seq(|s|, k requires 0 <= k < |s| => LowerChar(s[k]))
  }

  /** Lower-casing keeps every white-space character where it was, so a trimmed
      string stays trimmed. */
  lemma ToLowerKeepsTrimmed(s: string)
    requires Trimmed(s)
    ensures Trimmed(ToLower(s))
  {
  }

  /** Lower-casing twice is lower-casing once. */
  lemma ToLowerIdempotent(s: string)
    ensures ToLower(ToLower(s)) == ToLower(s)
  {
  }

  /** `sub` occurs in `s` starting at position `i`. */
  predicate OccursAt(s: string, sub: string, i: int)
  {
    0 <= i <= |s| - |sub| && s[i..i + |sub|] == sub
  }

  /** `String.prototype.includes`: `sub` occurs in `s` (the empty string occurs
      everywhere). */
  predicate Contains(s: string, sub: string)
    decreases |s|
  {
    sub <= s || (|s| > 0 && Contains(s[1..], sub))
  }

  /** `Contains` finds exactly the occurrences at some position of `s`. */
  lemma {:induction false} ContainsIff(s: string, sub: string)
    ensures Contains(s, sub) <==> exists i :: OccursAt(s, sub, i)
  {
    assert OccursAt(s, sub, 0) <==> sub <= s;
    if !(sub <= s) && |s| > 0 {
      ContainsIff(s[1..], sub);
      if Contains(s[1..], sub) {
        var i :| OccursAt(s[1..], sub, i);
        assert s[i + 1..i + 1 + |sub|] == sub;
        assert OccursAt(s, sub, i + 1);
      }
      if exists i :: OccursAt(s, sub, i) {
        var i :| OccursAt(s, sub, i);
        assert i > 0;
        assert s[1..][i - 1..i - 1 + |sub|] == sub;
        assert OccursAt(s[1..], sub, i - 1);
      }
    }
  }

  predicate IsDigit(c: char)
  {
    '0' <= c <= '9'
  }

  function DigitChar(d: nat): (c: char)
    requires d < 10
    ensures IsDigit(c) && c as int - '0' as int == d
  {
    ('0' as int + d) as char
  }

  /** The decimal rendering of a natural number, as a template string shows it:
      at least one digit, and a leading zero only for zero itself. */
  function NatToString(n: nat): (r: string)
    ensures |r| >= 1
    ensures forall k :: 0 <= k < |r| ==> IsDigit(r[k])
    ensures r[0] == '0' ==> n == 0
  {
    if n < 10 then [DigitChar(n)] else NatToString(n / 10) + [DigitChar(n % 10)]
  }

  /** Reads a string of decimal digits back as a number. */
  function ParseDigits(s: string): nat
    requires forall k :: 0 <= k < |s| ==> IsDigit(s[k])
  {
    if s == [] then 0
    else
      assert IsDigit(s[|s| - 1]);
      ParseDigits(s[..|s| - 1]) * 10 + (s[|s| - 1] as int - '0' as int)
  }

  /** The decimal rendering loses nothing: reading it back gives the number. */
  lemma {:induction false} NatToStringRoundTrip(n: nat)
    ensures ParseDigits(NatToString(n)) == n
  {
    if n >= 10 {
      var r := NatToString(n);
      assert r[..|r| - 1] == NatToString(n / 10);
      NatToStringRoundTrip(n / 10);
    }
  }

  /** Different numbers render differently. */
  lemma NatToStringInjective(m: nat, n: nat)
    requires NatToString(m) == NatToString(n)
    ensures m == n
  {
    NatToStringRoundTrip(m);
    NatToStringRoundTrip(n);
  }
}
