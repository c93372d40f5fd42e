/**
  The handful of Python `str` operations the decision engine relies on:
  `isspace`, `lower`, `strip`, `replace` with a one-character pattern,
  `re.sub(r"\s+", " ", ...)`, `" ".join(...)` and the substring test `kw in text`.
 */
module Strings {

  /** Python's `str.isspace()` on one code point; `str.strip()` and the regular
      expression class `\s` use the same predicate. */
  predicate IsSpace(c: char) {
    ('\t' <= c <= '\r') || ('\U{1c}' <= c <= '\U{1f}') || c == ' '
    || c == '\U{85}' || c == '\U{a0}' || c == '\U{1680}'
    || ('\U{2000}' <= c <= '\U{200a}') || c == '\U{2028}' || c == '\U{2029}'
    || c == '\U{202f}' || c == '\U{205f}' || c == '\U{3000}'
  }

  predicate IsAsciiUpper(c: char) {
    'A' <= c <= 'Z'
  }

  /** `str.lower()` on one character, for the ASCII letters. */
  function LowerChar(c: char): (r: char)
    ensures !IsAsciiUpper(r)
    ensures IsSpace(r) <==> IsSpace(c)
  {
    if IsAsciiUpper(c) then (c as int + 32) as char else c
  }

  /** `str.lower()`. */
  function Lower(s: string): (r: string)
    ensures |r| == |s|
    ensures forall i :: 0 <= i < |r| ==> !IsAsciiUpper(r[i])
  {
    seq(|s|, i requires 0 <= i < |s| => LowerChar(s[i]))
  }

  /** Drops the longest whitespace prefix. */
  function TrimLeft(s: string): (r: string)
    ensures |r| <= |s| && r == s[|s| - |r|..]
    ensures r == [] || !IsSpace(r[0])
    ensures forall i :: 0 <= i < |s| - |r| ==> IsSpace(s[i])
  {
    if s != [] && IsSpace(s[0]) then TrimLeft(s[1..]) else s
  }

  /** Drops the longest whitespace suffix. */
  function TrimRight(s: string): (r: string)
    ensures |r| <= |s| && r == s[..|r|]
    ensures r == [] || !IsSpace(r[|r| - 1])
    ensures forall i :: |r| <= i < |s| ==> IsSpace(s[i])
  {
    if s != [] && IsSpace(s[|s| - 1]) then TrimRight(s[..|s| - 1]) else s
  }

  /** `str.strip()`: the result is a slice of `s` with no whitespace at either end,
      and everything cut off is whitespace. */
  function Strip(s: string): (r: string)
    ensures r == [] || (!IsSpace(r[0]) && !IsSpace(r[|r| - 1]))
    ensures exists a: nat :: ContainsAt(s, r, a)
                        && (forall i :: 0 <= i < a ==> IsSpace(s[i]))
                        && (forall i :: a + |r| <= i < |s| ==> IsSpace(s[i]))
  {
    var left := TrimLeft(s);
    var r := TrimRight(left);
    var a := |s| - |left|;
    assert ContainsAt(s, r, a);
    r
  }

  /** `s.replace(c, t)` for a one-character pattern `c`: every `c` becomes `t`,
      nothing else changes. */
  function ReplaceChar(s: string, c: char, t: string): (r: string)
    ensures forall d :: d in r ==> (d in s && d != c) || d in t
    ensures forall d :: d in s && d != c ==> d in r
  {
    if s == [] then [] else (if s[0] == c then t else [s[0]]) + ReplaceChar(s[1..], c, t)
  }

  /** `re.sub(r"\s+", " ", s)`: every maximal run of whitespace becomes one space. */
  function CollapseSpaces(s: string): (r: string)
    ensures |r| <= |s|
    ensures r == [] <==> s == []
    ensures s != [] ==> (IsSpace(r[0]) <==> IsSpace(s[0]))
    ensures forall i :: 0 <= i < |r| && IsSpace(r[i]) ==> r[i] == ' '
    ensures forall i :: 0 <= i < |r| - 1 ==> !(IsSpace(r[i]) && IsSpace(r[i + 1]))
    ensures forall d :: d in r ==> (d in s && !IsSpace(d)) || d == ' '
    decreases |s|
  {
    if s == [] then []
    else if IsSpace(s[0]) then [' '] + CollapseSpaces(TrimLeft(s[1..]))
    else [s[0]] + CollapseSpaces(s[1..])
  }

  /** The characters of `s` that are not whitespace, in order. */
  function NonSpace(s: string): string {
    if s == [] then [] else (if IsSpace(s[0]) then [] else [s[0]]) + NonSpace(s[1..])
  }

  /** `sep.join(xs)`. */
  function Join(xs: seq<string>, sep: string): string {
    if xs == [] then "" else if |xs| == 1 then xs[0] else xs[0] + sep + Join(xs[1..], sep)
  }

  /** `kw` occurs in `text` starting at index `i`. */
  predicate ContainsAt(text: string, kw: string, i: nat) {
    i + |kw| <= |text| && text[i..i + |kw|] == kw
  }

  /** Python's `kw in text` on strings. */
  predicate Contains(text: string, kw: string) {
    exists i: nat | i <= |text| :: ContainsAt(text, kw, i)
  }

  /** Python's `any(kw in text for kw in kws)`. */
  predicate ContainsAny(text: string, kws: seq<string>) {
    exists k | 0 <= k < |kws| :: Contains(text, kws[k])
  }

  // ----- Lemmas -----

  lemma ContainsWitness(text: string, kw: string, i: nat)
    requires ContainsAt(text, kw, i)
    ensures Contains(text, kw)
  {
  }

  /** The empty string is contained in every string. */
  lemma ContainsEmpty(text: string)
    ensures Contains(text, "")
  {
    ContainsWitness(text, "", 0);
  }

  /** Substring containment is transitive. */
  lemma ContainsTransitive(a: string, b: string, c: string)
    requires Contains(a, b) && Contains(b, c)
    ensures Contains(a, c)
  {
    var i: nat :| i <= |a| && ContainsAt(a, b, i);
    var j: nat :| j <= |b| && ContainsAt(b, c, j);
    forall k | 0 <= k < |c| ensures a[i + j..i + j + |c|][k] == c[k] {
      assert a[i..i + |b|][j + k] == b[j + k];
      assert b[j..j + |c|][k] == c[k];
    }
    ContainsWitness(a, c, i + j);
  }

  /** A keyword with a character that never occurs in the text is not contained in it. */
  lemma NotContainsMissingChar(text: string, kw: string, j: nat)
    requires j < |kw| && kw[j] !in text
    ensures !Contains(text, kw)
  {
    forall i: nat | i <= |text| ensures !ContainsAt(text, kw, i) {
      if i + |kw| <= |text| {
        assert text[i..i + |kw|][j] == text[i + j];
        assert text[i + j] in text;
      }
    }
  }

  /** A keyword with two adjacent characters that never occur adjacently in the
      text is not contained in it. */
  lemma NotContainsMissingPair(text: string, kw: string, j: nat)
    requires j + 1 < |kw|
    requires forall i | 0 <= i < |text| - 1 :: !(text[i] == kw[j] && text[i + 1] == kw[j + 1])
    ensures !Contains(text, kw)
  {
    forall i: nat | i <= |text| ensures !ContainsAt(text, kw, i) {
      if i + |kw| <= |text| {
        assert text[i..i + |kw|][j] == text[i + j];
        assert text[i..i + |kw|][j + 1] == text[i + j + 1];
      }
    }
  }

  lemma {:induction false} ReplaceAppend(a: string, b: string, c: char, t: string)
    ensures ReplaceChar(a + b, c, t) == ReplaceChar(a, c, t) + ReplaceChar(b, c, t)
  {
    if a == [] {
      assert a + b == b;
    } else {
      assert (a + b)[1..] == a[1..] + b;
      ReplaceAppend(a[1..], b, c, t);
    }
  }

  /** Replacing a character that does not occur changes nothing. */
  lemma {:induction false} ReplaceAbsent(s: string, c: char, t: string)
    requires c !in s
    ensures ReplaceChar(s, c, t) == s
  {
    if s != [] {
      ReplaceAbsent(s[1..], c, t);
    }
  }

  /** Replacing by a one-character string is a character-wise map. */
  lemma {:induction false} ReplaceByChar(s: string, c: char, d: char)
    ensures ReplaceChar(s, c, [d]) == seq(|s|, i requires 0 <= i < |s| => if s[i] == c then d else s[i])
  {
    if s != [] {
      ReplaceByChar(s[1..], c, d);
    }
  }

  /** Collapsing keeps every non-whitespace character, in order. */
  lemma {:induction false} CollapseKeepsNonSpace(s: string)
    ensures NonSpace(CollapseSpaces(s)) == NonSpace(s)
    decreases |s|
  {
    if s != [] {
      if IsSpace(s[0]) {
        var t := TrimLeft(s[1..]);
        NonSpaceOfSpaces(s[1..], |s[1..]| - |t|);
        CollapseKeepsNonSpace(t);
        NonSpaceAppend([' '], CollapseSpaces(t));
      } else {
        CollapseKeepsNonSpace(s[1..]);
        NonSpaceAppend([s[0]], CollapseSpaces(s[1..]));
      }
    }
  }

  lemma {:induction false} NonSpaceAppend(a: string, b: string)
    ensures NonSpace(a + b) == NonSpace(a) + NonSpace(b)
  {
    if a == [] {
      assert a + b == b;
    } else {
      assert (a + b)[1..] == a[1..] + b;
      NonSpaceAppend(a[1..], b);
    }
  }

  /** Dropping a whitespace prefix does not change the non-whitespace characters. */
  lemma {:induction false} NonSpaceOfSpaces(s: string, n: nat)
    requires n <= |s| && forall i :: 0 <= i < n ==> IsSpace(s[i])
    ensures NonSpace(s) == NonSpace(s[n..])
  {
    if n > 0 {
      assert s[1..][n - 1..] == s[n..];
      NonSpaceOfSpaces(s[1..], n - 1);
    }
  }

  /** A string whose only whitespace is single spaces is left alone by collapsing. */
  lemma {:induction false} CollapseIdentity(s: string)
    requires forall i :: 0 <= i < |s| && IsSpace(s[i]) ==> s[i] == ' '
    requires forall i :: 0 <= i < |s| - 1 ==> !(IsSpace(s[i]) && IsSpace(s[i + 1]))
    ensures CollapseSpaces(s) == s
  {
    if s != [] {
      if IsSpace(s[0]) {
        assert s[1..] == [] || !IsSpace(s[1..][0]);
        CollapseIdentity(s[1..]);
      } else {
        CollapseIdentity(s[1..]);
      }
    }
  }
}
