/** The string primitives of ECMAScript that the front end relies on, over
    sequences of Unicode scalar values: `trim`, `includes`, `indexOf`,
    `startsWith`, `endsWith`, `toLowerCase` (ASCII letters only), `split` on a
    single character, `join`, number-to-decimal formatting and the `\W`
    replacement of export file names. */
module Text {
  import opened Wrappers

  /** `\s` in a regular expression, and what `String.prototype.trim` strips:
      the WhiteSpace and LineTerminator code points of ECMAScript. */
  predicate IsWhitespace(c: char)
  {
    || c == '\t' || c == '\n' || c == '\U{B}' || c == '\U{C}' || c == '\r' || c == ' '
    || c == '\U{A0}' || c == '\U{1680}' || ('\U{2000}' <= c <= '\U{200A}')
    || c == '\U{2028}' || c == '\U{2029}' || c == '\U{202F}' || c == '\U{205F}'
    || c == '\U{3000}' || c == '\U{FEFF}'
  }

  /** The characters `.` refuses to match in a regular expression without the `s` flag. */
  predicate IsLineTerminator(c: char)
  {
    c == '\n' || c == '\r' || c == '\U{2028}' || c == '\U{2029}'
  }

  lemma LineTerminatorIsWhitespace(c: char)
    requires IsLineTerminator(c)
    ensures IsWhitespace(c)
  {
  }

  /** Drops leading whitespace. */
  function TrimStart(s: string): (r: string)
    ensures |r| <= |s| && r == s[|s| - |r|..]
    ensures r == [] || !IsWhitespace(r[0])
    ensures forall i | 0 <= i < |s| - |r| :: IsWhitespace(s[i])
  {
    if s == [] || !IsWhitespace(s[0]) then s else TrimStart(s[1..])
  }

  /** Drops trailing whitespace. */
  function TrimEnd(s: string): (r: string)
    ensures |r| <= |s| && r == s[..|r|]
    ensures r == [] || !IsWhitespace(r[|r| - 1])
    ensures forall i | |r| <= i < |s| :: IsWhitespace(s[i])
  {
    if s == [] || !IsWhitespace(s[|s| - 1]) then s else TrimEnd(s[..|s| - 1])
  }

  /** `String.prototype.trim`: drops the leading, then the trailing whitespace. */
  function Trim(s: string): (r: string)
    ensures |r| <= |s|
    ensures r == [] <==> forall i | 0 <= i < |s| :: IsWhitespace(s[i])
    ensures r != [] ==> !IsWhitespace(r[0]) && !IsWhitespace(r[|r| - 1])
    ensures r == TrimEnd(TrimStart(s))
  {
    var t := TrimStart(s);
    assert TrimEnd(t) == [] ==> t == [];
    TrimEnd(t)
  }

  /** The trim is the slice of `s` that starts where the leading whitespace
      ends: nothing but whitespace is dropped in front of it or inside it. */
  lemma TrimIsSlice(s: string)
    ensures |s| - |TrimStart(s)| + |Trim(s)| <= |s| && Trim(s) == s[|s| - |TrimStart(s)|..|s| - |TrimStart(s)| + |Trim(s)|]
  {
    var t := TrimStart(s);
    assert t == s[|s| - |t|..];
    assert Trim(s) == t[..|Trim(s)|];
  }

  /** Everything after the trim is whitespace. */
  lemma TrimDropsTrailingWhitespace(s: string)
    ensures forall i | |s| - |TrimStart(s)| + |Trim(s)| <= i < |s| :: IsWhitespace(s[i])
  {
    var t := TrimStart(s);
    var lead := |s| - |t|;
    forall i | lead + |Trim(s)| <= i < |s| ensures IsWhitespace(s[i]) {
      assert s[i] == t[i - lead];
    }
  }

  /** A string whose ends are not whitespace is its own trim. */
  lemma TrimOfTrimmed(s: string)
    requires s == [] || (!IsWhitespace(s[0]) && !IsWhitespace(s[|s| - 1]))
    ensures Trim(s) == s
  {
  }

  /** Trailing whitespace after a text that ends in a non-whitespace character
      is dropped and nothing else. */
  lemma {:induction false} TrimEndOfPadded(t: string, pad: string)
    requires t != [] && !IsWhitespace(t[|t| - 1])
    requires forall i | 0 <= i < |pad| :: IsWhitespace(pad[i])
    ensures TrimEnd(t + pad) == t
    decreases |pad|
  {
    if pad == [] {
      assert t + pad == t;
    } else {
      var x := t + pad;
      assert x[|x| - 1] == pad[|pad| - 1];
      assert x[..|x| - 1] == t + pad[..|pad| - 1];
      TrimEndOfPadded(t, pad[..|pad| - 1]);
    }
  }

  /** Trimming a text with non-whitespace ends followed by whitespace gives the text. */
  lemma TrimOfPadded(t: string, pad: string)
    requires t != [] && !IsWhitespace(t[0]) && !IsWhitespace(t[|t| - 1])
    requires forall i | 0 <= i < |pad| :: IsWhitespace(pad[i])
    ensures Trim(t + pad) == t
  {
    assert (t + pad)[0] == t[0];
    assert TrimStart(t + pad) == t + pad;
    TrimEndOfPadded(t, pad);
  }

  /** `toLowerCase`, restricted to the ASCII letters. */
  function LowerChar(c: char): (r: char)
    ensures 'A' <= c <= 'Z' ==> 'a' <= r <= 'z' && r as int == c as int + 32
    ensures !('A' <= c <= 'Z') ==> r == c
  {
    if 'A' <= c <= 'Z' then (c as int + 32) as char else c
  }

  function Lower(s: string): (r: string)
    ensures |r| == |s|
    ensures forall i | 0 <= i < |s| :: r[i] == LowerChar(s[i])
  {
    if s == [] then [] else [LowerChar(s[0])] + Lower(s[1..])
  }

  predicate StartsWith(s: string, prefix: string)
  {
    |prefix| <= |s| && s[..|prefix|] == prefix
  }

  predicate EndsWith(s: string, suffix: string)
  {
    |suffix| <= |s| && s[|s| - |suffix|..] == suffix
  }

  /** `pat` occurs in `s` starting at index `i`. */
  predicate MatchesAt(s: string, i: nat, pat: string)
  {
    i + |pat| <= |s| && s[i..i + |pat|] == pat
  }

  /** `String.prototype.includes`. */
  predicate Contains(s: string, pat: string)
  {
    exists i: nat | i <= |s| :: MatchesAt(s, i, pat)
  }

  lemma ContainsEmpty(s: string)
    ensures Contains(s, "")
  {
    assert MatchesAt(s, 0, "");
  }

  /** `w` occurs in `a + w + b`. */
  lemma ContainsInMiddle(a: string, w: string, b: string)
    ensures Contains(a + w + b, w)
  {
    assert (a + w + b)[|a|..|a| + |w|] == w;
    assert MatchesAt(a + w + b, |a|, w);
  }

  /** An occurrence survives appending. */
  lemma ContainsExtend(s: string, e: string, w: string)
    requires Contains(s, w)
    ensures Contains(s + e, w)
  {
    var i: nat :| i <= |s| && MatchesAt(s, i, w);
    assert (s + e)[i..i + |w|] == s[i..i + |w|];
    assert MatchesAt(s + e, i, w);
  }

  /** `w` occurs in `a + w + b` right after `a`. */
  lemma MatchesInMiddle(a: string, w: string, b: string)
    ensures MatchesAt(a + w + b, |a|, w)
  {
    assert (a + w + b)[|a|..|a| + |w|] == w;
  }

  /** An occurrence at a position survives appending. */
  lemma MatchesExtend(s: string, e: string, i: nat, w: string)
    requires MatchesAt(s, i, w)
    ensures MatchesAt(s + e, i, w)
  {
    assert (s + e)[i..i + |w|] == s[i..i + |w|];
  }

  /** A pattern with a character that `s` lacks does not occur in `s`. */
  lemma NotContainsByChar(s: string, pat: string, k: nat)
    requires k < |pat| && pat[k] !in s
    ensures !Contains(s, pat)
  {
    forall i: nat | i <= |s| ensures !MatchesAt(s, i, pat) {
      if MatchesAt(s, i, pat) {
        assert false;
      }
    }
  }

  /** `indexOf(pat, from)`: the first occurrence of `pat` at or after `from`. */
  function IndexOf(s: string, pat: string, from: nat): (r: Option<nat>)
    requires from <= |s|
    ensures r.Some? ==> from <= r.value && MatchesAt(s, r.value, pat)
    ensures r.Some? ==> forall k | from <= k < r.value :: !MatchesAt(s, k, pat)
    ensures r.None? ==> forall k | from <= k <= |s| :: !MatchesAt(s, k, pat)
    decreases |s| - from
  {
    if MatchesAt(s, from, pat) then Some(from)
    else if from == |s| then None
    else IndexOf(s, pat, from + 1)
  }

  /** When `pat` does not occur in `prefix` followed by all of `pat` but its
      last character, the first occurrence in a text that starts with
      `prefix + pat` is right after `prefix`. */
  lemma IndexOfAfterPrefix(prefix: string, pat: string, s: string)
    requires pat != []
    requires !Contains(prefix + pat[..|pat| - 1], pat)
    requires |prefix| + |pat| <= |s| && s[..|prefix| + |pat|] == prefix + pat
    ensures IndexOf(s, pat, 0) == Some(|prefix|)
  {
    var early := prefix + pat[..|pat| - 1];
    assert early == s[..|prefix| + |pat| - 1];
    forall m | 0 <= m < |prefix| ensures !MatchesAt(s, m, pat) {
      assert s[m..m + |pat|] == early[m..m + |pat|];
      assert MatchesAt(s, m, pat) == MatchesAt(early, m, pat);
    }
    assert s[|prefix|..|prefix| + |pat|] == pat;
    assert MatchesAt(s, |prefix|, pat);
  }

  lemma IndexOfIffContains(s: string, pat: string)
    ensures IndexOf(s, pat, 0).Some? <==> Contains(s, pat)
  {
    var r := IndexOf(s, pat, 0);
    if r.Some? {
      assert MatchesAt(s, r.value, pat);
    }
  }

  /** `parts.join(sep)`. */
  function Join(parts: seq<string>, sep: string): string
  {
    if |parts| == 0 then ""
    else if |parts| == 1 then parts[0]
    else parts[0] + sep + Join(parts[1..], sep)
  }

  /** `s.split(sep)` for a one-character separator: the maximal runs between
      separators, in order, the empty ones included. */
  function Split(s: string, sep: char): (parts: seq<string>)
    ensures |parts| >= 1
    ensures forall k | 0 <= k < |parts| :: sep !in parts[k]
  {
    if s == [] then [""]
    else
      var rest := Split(s[1..], sep);
      if s[0] == sep then [""] + rest
      else [[s[0]] + rest[0]] + rest[1..]
  }

  /** Joining the pieces of a split with the separator gives back the string. */
  lemma {:induction false} JoinSplit(s: string, sep: char)
    ensures Join(Split(s, sep), [sep]) == s
  {
    if s != [] {
      var rest := Split(s[1..], sep);
      JoinSplit(s[1..], sep);
      if s[0] == sep {
        assert Split(s, sep) == [""] + rest;
        assert Join([""] + rest, [sep]) == "" + [sep] + Join(rest, [sep]) by {
          assert ([""] + rest)[1..] == rest;
        }
      } else {
        var parts := [[s[0]] + rest[0]] + rest[1..];
        assert Split(s, sep) == parts;
        if |rest| == 1 {
          assert Join(parts, [sep]) == [s[0]] + rest[0];
          assert s == [s[0]] + s[1..];
        } else {
          assert parts[1..] == rest[1..];
          assert Join(rest, [sep]) == rest[0] + [sep] + Join(rest[1..], [sep]);
          assert s == [s[0]] + s[1..];
        }
      }
    }
  }

  /** Splitting at a separator that first occurs after `x`. */
  lemma {:induction false} SplitAtFirst(x: string, sep: char, y: string)
    requires sep !in x
    ensures Split(x + [sep] + y, sep) == [x] + Split(y, sep)
  {
    if x == [] {
      assert x + [sep] + y == [sep] + y;
      assert ([sep] + y)[1..] == y;
    } else {
      var s := x + [sep] + y;
      assert s[0] == x[0] && s[1..] == x[1..] + [sep] + y;
      SplitAtFirst(x[1..], sep, y);
      assert [x[0]] + x[1..] == x;
    }
  }

  /** The separator of a join never comes from parts that lack it. */
  lemma {:induction false} JoinLacks(parts: seq<string>, sep: string, c: char)
    requires c !in sep
    requires forall k | 0 <= k < |parts| :: c !in parts[k]
    ensures c !in Join(parts, sep)
  {
    if |parts| > 1 {
      JoinLacks(parts[1..], sep, c);
    }
  }

  /** A character for a decimal digit. */
  function DigitChar(d: nat): (c: char)
    requires d < 10
    ensures '0' <= c <= '9' && c as int - '0' as int == d
  {
    ('0' as int + d) as char
  }

  predicate IsDigits(s: string)
  {
    forall i | 0 <= i < |s| :: '0' <= s[i] <= '9'
  }

  /** Template-literal formatting of a non-negative integer: decimal, no leading zero. */
  function NatToString(n: nat): (s: string)
    ensures |s| >= 1 && IsDigits(s)
    ensures s[0] == '0' ==> n == 0
  {
    if n < 10 then [DigitChar(n)] else NatToString(n / 10) + [DigitChar(n % 10)]
  }

  /** The number a string of decimal digits denotes. */
  function DigitsValue(s: string): nat
    requires IsDigits(s)
  {
    if s == [] then 0 else DigitsValue(s[..|s| - 1]) * 10 + (s[|s| - 1] as int - '0' as int)
  }

  /** Reading back the decimal text of a number gives the number. */
  lemma {:induction false} NatToStringRoundTrip(n: nat)
    ensures DigitsValue(NatToString(n)) == n
  {
    if n >= 10 {
      NatToStringRoundTrip(n / 10);
      var s := NatToString(n);
      assert s[..|s| - 1] == NatToString(n / 10);
    }
  }

  /** Distinct numbers print differently. */
  lemma NatToStringInjective(m: nat, n: nat)
    requires m != n
    ensures NatToString(m) != NatToString(n)
  {
    NatToStringRoundTrip(m);
    NatToStringRoundTrip(n);
  }

  /** A character of the `\w` class: ASCII letters, digits and `_`. */
  predicate IsWordChar(c: char)
  {
    'A' <= c <= 'Z' || 'a' <= c <= 'z' || '0' <= c <= '9' || c == '_'
  }

  /** `s.replace(/\W/g, '_')`. */
  function ReplaceNonWord(s: string): (r: string)
    ensures |r| == |s|
    ensures forall i | 0 <= i < |s| :: IsWordChar(r[i])
    ensures forall i | 0 <= i < |s| :: IsWordChar(s[i]) ==> r[i] == s[i]
    ensures forall i | 0 <= i < |s| :: !IsWordChar(s[i]) ==> r[i] == '_'
  {
    if s == [] then []
    else [if IsWordChar(s[0]) then s[0] else '_'] + ReplaceNonWord(s[1..])
  }
}
