/**
 * The parts of Python's `str` type that the migration tool relies on:
 * `strip`/`lstrip`/`rstrip` with a character set, `split()` on whitespace,
 * `split(sep)` on one character, `join`, `lower`/`upper`/`capitalize`,
 * `replace`, `in`, `startswith`/`endswith` and `isdigit`.
 * Strings are sequences of Unicode scalar values.
 */
module PyStr {

  /** `c.isspace()`: the characters that `split()`, `strip()` and the pattern `\s` treat as whitespace. */
  predicate IsSpace(c: char)
  {
    ('\t' <= c <= '\r') || ('\U{001C}' <= c <= ' ') || c == '\U{0085}' || c == '\U{00A0}'
    || c == '\U{1680}' || ('\U{2000}' <= c <= '\U{200A}') || c == '\U{2028}' || c == '\U{2029}'
    || c == '\U{202F}' || c == '\U{205F}' || c == '\U{3000}'
  }

  const Whitespace: set<char> := set c: char | '\t' <= c <= '\U{3000}' && IsSpace(c)

  predicate IsDigit(c: char) { '0' <= c <= '9' }

  predicate IsAsciiLetter(c: char) { 'a' <= c <= 'z' || 'A' <= c <= 'Z' }

  /** Letters of Latin-1 (U+00C0-U+00FF without the two operators) and the ordinal indicators. */
  predicate IsLatinLetter(c: char)
  {
    ('\U{00C0}' <= c <= '\U{00FF}' && c != '\U{00D7}' && c != '\U{00F7}')
    || c == '\U{00AA}' || c == '\U{00B5}' || c == '\U{00BA}'
  }

  /** The numeric characters of Latin-1: the superscripts `²`, `³`, `¹` and the fractions `¼`, `½`, `¾`. */
  predicate IsLatinNumeric(c: char)
  {
    c == '\U{00B2}' || c == '\U{00B3}' || c == '\U{00B9}' || ('\U{00BC}' <= c <= '\U{00BE}')
  }

  /** `str.isalnum()` on one character, for ASCII and Latin-1. */
  predicate IsAlnum(c: char) { IsDigit(c) || IsAsciiLetter(c) || IsLatinLetter(c) || IsLatinNumeric(c) }

  /** Non-empty and made of ASCII digits only: the texts `int` and `str` of an integer deal in. */
  predicate IsDigits(s: string) { s != [] && forall i :: 0 <= i < |s| ==> IsDigit(s[i]) }

  /** `str.isdigit()` on one character, for ASCII and Latin-1: the digits and the superscripts `²`, `³`, `¹`. */
  predicate IsDigitChar(c: char) { IsDigit(c) || c == '\U{00B2}' || c == '\U{00B3}' || c == '\U{00B9}' }

  /** `str.isdigit()`, for ASCII and Latin-1: non-empty and every character a digit. */
  predicate IsDigitText(s: string) { s != [] && forall i :: 0 <= i < |s| ==> IsDigitChar(s[i]) }

  // ---------------------------------------------------------------- prefixes and substrings

  predicate StartsWith(s: string, p: string) { |p| <= |s| && s[..|p|] == p }

  predicate EndsWith(s: string, p: string) { |p| <= |s| && s[|s| - |p|..] == p }

  lemma StartsWithConcat(a: string, b: string)
    ensures StartsWith(a + b, a)
  {
    assert (a + b)[..|a|] == a;
  }

  lemma EndsWithConcat(a: string, b: string)
    ensures EndsWith(a + b, b)
  {
    assert (a + b)[|a + b| - |b|..] == b;
  }

  lemma AbsentFromConcat(p: string, d: string, c: char)
    requires c !in p && c !in d
    ensures c !in p + d
  {
  }

  /** The middle part of a concatenation sits right after the first. */
  lemma MiddleOfConcat(a: string, m: string, b: string)
    ensures (a + m + b)[|a|..|a| + |m|] == m
  {
  }

  lemma ConcatAssoc(a: string, b: string, c: string)
    ensures (a + b) + c == a + (b + c)
  {
  }

  lemma ContainsOwnPrefix(a: string, b: string)
    ensures Contains(a + b, a)
  {
    StartsWithConcat(a, b);
  }

  lemma StartsWithExtend(s: string, p: string, t: string)
    requires StartsWith(s, p)
    ensures StartsWith(s + t, p)
  {
    assert (s + t)[..|p|] == s[..|p|];
  }

  lemma EndsWithJoined(z: string, q: string, p: string)
    ensures EndsWith(z + q + p, q + p)
  {
    assert z + q + p == z + (q + p);
    EndsWithConcat(z, q + p);
  }

  /** `sub in s`. */
  predicate Contains(s: string, sub: string)
    decreases |s|
  {
    StartsWith(s, sub) || (s != [] && Contains(s[1..], sub))
  }

  lemma {:induction false} ContainsAt(s: string, m: string, k: nat)
    requires k + |m| <= |s| && s[k..k + |m|] == m
    ensures Contains(s, m)
    decreases k
  {
    if k > 0 {
      assert s[1..][k - 1..k - 1 + |m|] == s[k..k + |m|];
      ContainsAt(s[1..], m, k - 1);
    }
  }

  lemma {:induction false} ContainsAppend(a: string, b: string, m: string)
    requires Contains(a, m)
    ensures Contains(a + b, m)
    decreases |a|
  {
    if StartsWith(a, m) {
      assert (a + b)[..|m|] == a[..|m|];
    } else {
      assert (a + b)[1..] == a[1..] + b;
      ContainsAppend(a[1..], b, m);
    }
  }

  lemma {:induction false} ContainsPrepend(p: string, s: string, m: string)
    requires Contains(s, m)
    ensures Contains(p + s, m)
    decreases |p|
  {
    if p == [] {
      assert p + s == s;
    } else {
      assert (p + s)[1..] == p[1..] + s;
      ContainsPrepend(p[1..], s, m);
    }
  }

  lemma SeamInside(a: string, b: string, m: string)
    requires a != [] && |m| > |a| && StartsWith(a + b, m)
    ensures a[|a| - 1] in m && (b != [] ==> b[0] in m)
  {
    assert m[|a| - 1] == (a + b)[|a| - 1];
    if b != [] { assert m[|a|] == (a + b)[|a|]; }
  }

  /**
   * An occurrence of `m` in `a + b` lies inside `a` or inside `b` when one of the two
   * characters at the seam is not in `m`.
   */
  lemma {:induction false} ContainsConcat(a: string, b: string, m: string)
    requires (a != [] && a[|a| - 1] !in m) || (b != [] && b[0] !in m)
    requires Contains(a + b, m)
    ensures Contains(a, m) || Contains(b, m)
    decreases |a|
  {
    if a == [] {
      assert a + b == b;
    } else if StartsWith(a + b, m) {
      if |m| <= |a| {
        assert (a + b)[..|m|] == a[..|m|];
      } else {
        SeamInside(a, b, m);
      }
    } else {
      assert (a + b)[1..] == a[1..] + b;
      if a[1..] == [] {
        assert a[1..] + b == b;
      } else {
        assert a[1..][|a[1..]| - 1] == a[|a| - 1];
        ContainsConcat(a[1..], b, m);
      }
    }
  }

  /** A text lacking one of the characters of `m` does not contain `m`. */
  lemma {:induction false} ContainsLacking(s: string, m: string, c: char)
    requires c in m && c !in s
    ensures !Contains(s, m)
    decreases |s|
  {
    if s != [] {
      ContainsLacking(s[1..], m, c);
    }
  }

  /** An occurrence of `m` cannot start inside a prefix that lacks `m`'s first character. */
  lemma {:induction false} ContainsAfterPrefix(p: string, s: string, m: string)
    requires m != [] && m[0] !in p
    requires Contains(p + s, m)
    ensures Contains(s, m)
    decreases |p|
  {
    if p != [] {
      assert !StartsWith(p + s, m) by { assert (p + s)[0] == p[0]; }
      assert (p + s)[1..] == p[1..] + s;
      ContainsAfterPrefix(p[1..], s, m);
    } else {
      assert p + s == s;
    }
  }

  // ---------------------------------------------------------------- strip

  /** `s.lstrip(cs)`. */
  function LStrip(s: string, cs: set<char>): (r: string)
    ensures |r| <= |s| && r == s[|s| - |r|..]
    ensures r != [] ==> r[0] !in cs
    ensures forall i :: 0 <= i < |s| - |r| ==> s[i] in cs
    decreases |s|
  {
    if s != [] && s[0] in cs then LStrip(s[1..], cs) else s
  }

  /** A text not starting with a stripped character is its own `lstrip`. */
  lemma LStripUnchanged(s: string, cs: set<char>)
    requires s == [] || s[0] !in cs
    ensures LStrip(s, cs) == s
  {
  }

  /** `s.rstrip(cs)`. */
  function RStrip(s: string, cs: set<char>): (r: string)
    ensures |r| <= |s| && r == s[..|r|]
    ensures r != [] ==> r[|r| - 1] !in cs
    ensures forall i :: |r| <= i < |s| ==> s[i] in cs
    decreases |s|
  {
    if s != [] && s[|s| - 1] in cs then RStrip(s[..|s| - 1], cs) else s
  }

  /** A text not ending in a stripped character is its own `rstrip`. */
  lemma RStripUnchanged(s: string, cs: set<char>)
    requires s != [] && s[|s| - 1] !in cs
    ensures RStrip(s, cs) == s
  {
  }

  /** A stripped character appended at the end makes no difference. */
  lemma RStripAppended(s: string, c: char, cs: set<char>)
    requires c in cs
    ensures RStrip(s + [c], cs) == RStrip(s, cs)
  {
    assert (s + [c])[..|s|] == s;
  }

  /** `s.strip(cs)`. */
  function StripChars(s: string, cs: set<char>): string
  {
    RStrip(LStrip(s, cs), cs)
  }

  /** `s.strip()`. */
  function Strip(s: string): string
  {
    StripChars(s, Whitespace)
  }

  lemma StripEnds(s: string, cs: set<char>)
    ensures var r := StripChars(s, cs); r != [] ==> r[0] !in cs && r[|r| - 1] !in cs
  {
  }

  /** `strip(cs)` keeps a slice of its input, starting after the leading run it drops. */
  lemma StripCharsSlice(s: string, cs: set<char>)
    ensures var k := |s| - |LStrip(s, cs)|;
            k + |StripChars(s, cs)| <= |s| && StripChars(s, cs) == s[k..k + |StripChars(s, cs)|]
  {
  }

  lemma StripUnchanged(s: string, cs: set<char>)
    requires s != [] ==> s[0] !in cs && s[|s| - 1] !in cs
    ensures StripChars(s, cs) == s
  {
  }

  lemma StripIdempotent(s: string, cs: set<char>)
    ensures StripChars(StripChars(s, cs), cs) == StripChars(s, cs)
  {
    var r := StripChars(s, cs);
    if r != [] {
      StripEnds(s, cs);
      assert LStrip(r, cs) == r;
    }
  }

  /** Stripping only removes characters. */
  lemma StripSubset(s: string, cs: set<char>, c: char)
    ensures c !in s ==> c !in StripChars(s, cs)
  {
    var l := LStrip(s, cs);
    var r := RStrip(l, cs);
    if c in r { var k :| 0 <= k < |r| && r[k] == c; assert l[k] == c; assert s[|s| - |l| + k] == c; }
  }

  lemma StripEmpty(s: string)
    ensures Strip(s) == [] <==> forall i :: 0 <= i < |s| ==> s[i] in Whitespace
  {
    var l := LStrip(s, Whitespace);
    if l != [] {
      assert l[0] == s[|s| - |l|];
      StripEnds(s, Whitespace);
    }
  }

  // ---------------------------------------------------------------- split on whitespace

  /** A field of a split on the separator set `cs`: non-empty and free of separators. */
  predicate IsField(w: string, cs: set<char>) { w != [] && forall i :: 0 <= i < |w| ==> w[i] !in cs }

  /** A word of `split()`: non-empty and free of whitespace. */
  predicate IsWord(w: string) { IsField(w, Whitespace) }

  /** The longest prefix of `s` without a character of `cs`. */
  function TakeField(s: string, cs: set<char>): (w: string)
    ensures |w| <= |s| && w == s[..|w|]
    ensures forall i :: 0 <= i < |w| ==> w[i] !in cs
    ensures |w| < |s| ==> s[|w|] in cs
    ensures s != [] && s[0] !in cs ==> w != []
  {
    if s == [] || s[0] in cs then [] else [s[0]] + TakeField(s[1..], cs)
  }

  /** The maximal runs of characters outside `cs`, in order. */
  function SplitRuns(s: string, cs: set<char>): seq<string>
    decreases |s|
  {
    var t := LStrip(s, cs);
    if t == [] then [] else
      var w := TakeField(t, cs);
      [w] + SplitRuns(t[|w|..], cs)
  }

  /** Every run is non-empty and free of separators. */
  lemma {:induction false} SplitRunsFields(s: string, cs: set<char>)
    ensures forall i :: 0 <= i < |SplitRuns(s, cs)| ==> IsField(SplitRuns(s, cs)[i], cs)
    decreases |s|
  {
    var t := LStrip(s, cs);
    if t != [] {
      var w := TakeField(t, cs);
      var rest := SplitRuns(t[|w|..], cs);
      SplitRunsFields(t[|w|..], cs);
      assert SplitRuns(s, cs) == [w] + rest;
      forall i | 0 <= i < |[w] + rest| ensures IsField(([w] + rest)[i], cs) {
        if i > 0 {
          assert ([w] + rest)[i] == rest[i - 1];
        }
      }
    }
  }

  /** `s.split()`: the maximal runs of non-whitespace, in order. */
  function SplitWs(s: string): (r: seq<string>)
    ensures forall i :: 0 <= i < |r| ==> IsWord(r[i])
  {
    SplitRunsFields(s, Whitespace);
    SplitRuns(s, Whitespace)
  }

  /** `sep.join(parts)`. */
  function Join(parts: seq<string>, sep: string): string
  {
    if |parts| == 0 then []
    else if |parts| == 1 then parts[0]
    else parts[0] + sep + Join(parts[1..], sep)
  }

  lemma JoinPair(a: string, b: string, sep: string)
    ensures Join([a, b], sep) == a + sep + b
  {
    assert [a, b][1..] == [b];
  }

  lemma JoinStartsWithFirst(parts: seq<string>, sep: string)
    requires |parts| > 0
    ensures StartsWith(Join(parts, sep), parts[0])
  {
  }

  /** Joining one more part appends the separator and that part. */
  lemma {:induction false} JoinSnoc(parts: seq<string>, last: string, sep: string)
    requires |parts| > 0
    ensures Join(parts + [last], sep) == Join(parts, sep) + sep + last
  {
    if |parts| == 1 {
      assert parts + [last] == [parts[0], last];
      JoinPair(parts[0], last, sep);
    } else {
      assert (parts + [last])[1..] == parts[1..] + [last];
      JoinSnoc(parts[1..], last, sep);
    }
  }

  lemma TakeFieldOfField(w: string, rest: string, cs: set<char>)
    requires IsField(w, cs)
    requires rest == [] || rest[0] in cs
    ensures TakeField(w + rest, cs) == w
    decreases |w|
  {
    if |w| > 1 {
      assert (w + rest)[1..] == w[1..] + rest;
      TakeFieldOfField(w[1..], rest, cs);
    } else {
      assert (w + rest)[1..] == rest;
    }
  }

  lemma SplitRunsCons(w: string, rest: string, cs: set<char>)
    requires IsField(w, cs)
    requires rest == [] || rest[0] in cs
    ensures SplitRuns(w + rest, cs) == [w] + SplitRuns(rest, cs)
  {
    var s := w + rest;
    assert s[0] == w[0];
    assert LStrip(s, cs) == s;
    TakeFieldOfField(w, rest, cs);
    assert s[|w|..] == rest;
  }

  lemma SplitRunsSkip(sp: char, rest: string, cs: set<char>)
    requires sp in cs
    ensures SplitRuns([sp] + rest, cs) == SplitRuns(rest, cs)
  {
    assert ([sp] + rest)[1..] == rest;
    assert LStrip([sp] + rest, cs) == LStrip(rest, cs);
  }

  /** Every element of `ws` is a field for `cs`. */
  predicate AllFields(ws: seq<string>, cs: set<char>) { forall i :: 0 <= i < |ws| ==> IsField(ws[i], cs) }

  /** Splitting a list of fields joined by one separator character gives the fields back. */
  lemma {:induction false} SplitJoinFields(ws: seq<string>, sp: char, cs: set<char>)
    requires sp in cs && AllFields(ws, cs)
    ensures SplitRuns(Join(ws, [sp]), cs) == ws
  {
    if |ws| == 1 {
      assert IsField(ws[0], cs);
      SplitRunsCons(ws[0], [], cs);
      assert ws[0] + [] == ws[0];
      assert SplitRuns([], cs) == [];
    } else if |ws| > 1 {
      var tail := ws[1..];
      var j := Join(tail, [sp]);
      assert Join(ws, [sp]) == ws[0] + ([sp] + j);
      assert IsField(ws[0], cs);
      SplitRunsCons(ws[0], [sp] + j, cs);
      SplitRunsSkip(sp, j, cs);
      assert AllFields(tail, cs) by {
        forall i | 0 <= i < |tail| ensures IsField(tail[i], cs) { assert tail[i] == ws[i + 1]; }
      }
      SplitJoinFields(tail, sp, cs);
      HeadTail(ws);
    }
  }

  /** A non-empty sequence is its head followed by its tail. */
  lemma HeadTail<T>(ws: seq<T>)
    requires ws != []
    ensures ws == [ws[0]] + ws[1..]
  {
  }

  /** Splitting a space-joined list of words gives the words back. */
  lemma SplitJoinWords(ws: seq<string>)
    requires forall i :: 0 <= i < |ws| ==> IsWord(ws[i])
    ensures SplitWs(Join(ws, " ")) == ws
  {
    assert AllFields(ws, Whitespace) by {
      forall i | 0 <= i < |ws| ensures IsField(ws[i], Whitespace) { assert IsWord(ws[i]); }
    }
    SplitJoinFields(ws, ' ', Whitespace);
  }

  lemma SplitRunsEmpty(s: string, cs: set<char>)
    ensures SplitRuns(s, cs) == [] <==> LStrip(s, cs) == []
  {
  }

  /** `s.strip().split()` is empty exactly when `s` is blank. */
  lemma SplitStripEmpty(s: string)
    ensures SplitWs(Strip(s)) == [] <==> Strip(s) == []
  {
    var r := Strip(s);
    if r != [] {
      StripEnds(s, Whitespace);
      assert LStrip(r, Whitespace) == r;
    }
  }

  // ---------------------------------------------------------------- split on one character

  /** `s.split(sep)` for a one-character separator. */
  function Split(s: string, sep: char): (r: seq<string>)
    ensures |r| >= 1
    decreases |s|
  {
    if s == [] then [[]]
    else
      var rest := Split(s[1..], sep);
      if s[0] == sep then [[]] + rest else [[s[0]] + rest[0]] + rest[1..]
  }

  lemma SplitStep(s: string, sep: char)
    requires s != []
    ensures Split(s, sep) ==
      if s[0] == sep then [[]] + Split(s[1..], sep)
      else [[s[0]] + Split(s[1..], sep)[0]] + Split(s[1..], sep)[1..]
  {
  }

  lemma {:induction false} SplitNoSep(a: string, sep: char)
    requires sep !in a
    ensures Split(a, sep) == [a]
    decreases |a|
  {
    if a != [] {
      SplitNoSep(a[1..], sep);
      assert a == [a[0]] + a[1..];
    }
  }

  /** A separator-free text followed by the separator is the first part of the split. */
  lemma {:induction false} SplitAfterField(a: string, b: string, sep: char)
    requires sep !in a
    ensures Split(a + [sep] + b, sep) == [a] + Split(b, sep)
    decreases |a|
  {
    var s := a + [sep] + b;
    if a == [] {
      assert s[1..] == b;
    } else {
      assert s[1..] == a[1..] + [sep] + b;
      SplitAfterField(a[1..], b, sep);
      assert [a[0]] + a[1..] == a;
    }
  }

  /** Number of occurrences of `c` in `s`. */
  function Count(s: string, c: char): nat
  {
    if s == [] then 0 else (if s[0] == c then 1 else 0) + Count(s[1..], c)
  }

  lemma {:induction false} SplitCount(s: string, sep: char)
    ensures |Split(s, sep)| == Count(s, sep) + 1
    ensures forall i :: 0 <= i < |Split(s, sep)| ==> sep !in Split(s, sep)[i]
    decreases |s|
  {
    if s != [] {
      SplitCount(s[1..], sep);
    }
  }

  lemma {:induction false} SplitJoin(s: string, sep: char)
    ensures Join(Split(s, sep), [sep]) == s
    decreases |s|
  {
    if s != [] {
      var rest := Split(s[1..], sep);
      SplitJoin(s[1..], sep);
      if s[0] == sep {
        assert Split(s, sep) == [[]] + rest;
      } else {
        var r := Split(s, sep);
        assert r == [[s[0]] + rest[0]] + rest[1..];
        if |rest| > 1 {
          assert r[1..] == rest[1..];
          assert Join(rest, [sep]) == rest[0] + [sep] + Join(rest[1..], [sep]);
        }
      }
    }
  }

  // ---------------------------------------------------------------- case

  /** `c.lower()` for ASCII and Latin-1 capitals; every other character is unchanged. */
  function LowerChar(c: char): char
  {
    if 'A' <= c <= 'Z' || ('\U{00C0}' <= c <= '\U{00DE}' && c != '\U{00D7}') then (c as int + 32) as char else c
  }

  /** `c.upper()` for ASCII and Latin-1 small letters (`ß`, `ÿ` and `µ` unchanged). */
  function UpperChar(c: char): char
  {
    if 'a' <= c <= 'z' || ('\U{00E0}' <= c <= '\U{00FE}' && c != '\U{00F7}') then (c as int - 32) as char else c
  }

  function Lower(s: string): (r: string)
    ensures |r| == |s|
    ensures forall i :: 0 <= i < |s| ==> r[i] == LowerChar(s[i])
  {
    if s == [] then [] else [LowerChar(s[0])] + Lower(s[1..])
  }

  /** A text of small ASCII letters is its own lower case. */
  lemma LowerOfSmall(s: string)
    requires forall i :: 0 <= i < |s| ==> 'a' <= s[i] <= 'z'
    ensures Lower(s) == s
  {
    assert forall i :: 0 <= i < |s| ==> Lower(s)[i] == s[i];
  }

  function Upper(s: string): (r: string)
    ensures |r| == |s|
    ensures forall i :: 0 <= i < |s| ==> r[i] == UpperChar(s[i])
  {
    if s == [] then [] else [UpperChar(s[0])] + Upper(s[1..])
  }

  /** `s.capitalize()`: first character upper case, the rest lower case. */
  function Capitalize(s: string): (r: string)
    ensures |r| == |s|
  {
    if s == [] then [] else [UpperChar(s[0])] + Lower(s[1..])
  }

  lemma CaseKeepsWhitespace(c: char)
    ensures LowerChar(c) in Whitespace <==> c in Whitespace
    ensures UpperChar(c) in Whitespace <==> c in Whitespace
  {
  }

  lemma CaseKeepsWords(w: string)
    requires IsWord(w)
    ensures IsWord(Lower(w)) && IsWord(Upper(w)) && IsWord(Capitalize(w))
  {
    forall i | 0 <= i < |w| ensures LowerChar(w[i]) !in Whitespace && UpperChar(w[i]) !in Whitespace {
      CaseKeepsWhitespace(w[i]);
    }
    var c := Capitalize(w);
    forall i | 0 <= i < |c| ensures c[i] !in Whitespace {
      if i == 0 { CaseKeepsWhitespace(w[0]); } else { CaseKeepsWhitespace(w[i]); }
    }
  }

  // ---------------------------------------------------------------- replace

  /**
   * `s.replace(pat, sub)`: every non-overlapping occurrence, scanning left to right.
   * An empty `pat` leaves `s` unchanged (the tool never replaces an empty text).
   */
  function Replace(s: string, pat: string, sub: string): string
    decreases |s|
  {
    if pat == [] || |s| < |pat| then s
    else if s[..|pat|] == pat then sub + Replace(s[|pat|..], pat, sub)
    else [s[0]] + Replace(s[1..], pat, sub)
  }

  /** `replace` only brings in characters of `sub`. */
  lemma {:induction false} ReplaceChars(s: string, pat: string, sub: string, c: char)
    ensures c in Replace(s, pat, sub) ==> c in s || c in sub
    decreases |s|
  {
    if pat != [] && |s| >= |pat| {
      if s[..|pat|] == pat {
        ReplaceChars(s[|pat|..], pat, sub, c);
      } else {
        ReplaceChars(s[1..], pat, sub, c);
      }
    }
  }

  /** Replacing a character by a text that does not hold it removes it. */
  lemma {:induction false} ReplaceRemoves(s: string, c: char, sub: string)
    requires c !in sub
    ensures c !in Replace(s, [c], sub)
    decreases |s|
  {
    if |s| >= 1 {
      ReplaceRemoves(s[1..], c, sub);
      if s[..1] == [c] {
        assert s[1..] == s[|[c]|..];
      }
    }
  }

  /** `replace` leaves a text without the pattern unchanged. */
  lemma {:induction false} ReplaceAbsent(s: string, pat: string, sub: string)
    requires !Contains(s, pat)
    ensures Replace(s, pat, sub) == s
    decreases |s|
  {
    if pat != [] && |s| >= |pat| {
      assert s[..|pat|] != pat;
      ReplaceAbsent(s[1..], pat, sub);
      assert [s[0]] + s[1..] == s;
    }
  }

  // ---------------------------------------------------------------- runs

  /** `re.sub('[cs]+', rep, s)`: every maximal run of characters of `cs` becomes one `rep`. */
  function Collapse(s: string, cs: set<char>, rep: char): string
    decreases |s|
  {
    if s == [] then []
    else if s[0] in cs then [rep] + Collapse(LStrip(s, cs), cs, rep)
    else [s[0]] + Collapse(s[1..], cs, rep)
  }

  /** No two adjacent occurrences of `c`. */
  predicate NoDoubled(s: string, c: char)
  {
    forall i :: 0 <= i < |s| - 1 ==> !(s[i] == c && s[i + 1] == c)
  }

  lemma {:induction false} CollapseChars(s: string, cs: set<char>, rep: char, c: char)
    ensures c in Collapse(s, cs, rep) ==> (c in s && c !in cs) || c == rep
    decreases |s|
  {
    if s != [] {
      if s[0] in cs {
        var l := LStrip(s, cs);
        CollapseChars(l, cs, rep, c);
        if c in l { var k :| 0 <= k < |l| && l[k] == c; assert s[|s| - |l| + k] == c; }
      } else {
        CollapseChars(s[1..], cs, rep, c);
      }
    }
  }

  lemma CollapseHead(s: string, cs: set<char>, rep: char)
    requires s != []
    ensures Collapse(s, cs, rep) != []
    ensures Collapse(s, cs, rep)[0] == if s[0] in cs then rep else s[0]
  {
  }

  lemma {:induction false} CollapseLast(s: string, cs: set<char>, rep: char)
    requires s != []
    ensures Collapse(s, cs, rep) != []
    ensures var r := Collapse(s, cs, rep); r[|r| - 1] == if s[|s| - 1] in cs then rep else s[|s| - 1]
    decreases |s|
  {
    if s[0] in cs {
      var l := LStrip(s, cs);
      if l != [] {
        CollapseLast(l, cs, rep);
        assert l[|l| - 1] == s[|s| - 1];
      } else {
        assert s[|s| - 1] in cs;
      }
    } else if |s| > 1 {
      CollapseLast(s[1..], cs, rep);
    }
  }

  /** A collapsed run leaves exactly one `rep` where the run was. */
  lemma {:induction false} CollapseNoDoubled(s: string, cs: set<char>, rep: char)
    requires rep in cs
    ensures NoDoubled(Collapse(s, cs, rep), rep)
    decreases |s|
  {
    if s != [] {
      var r := Collapse(s, cs, rep);
      if s[0] in cs {
        var l := LStrip(s, cs);
        CollapseNoDoubled(l, cs, rep);
        if l != [] { CollapseHead(l, cs, rep); }
      } else {
        CollapseNoDoubled(s[1..], cs, rep);
        if |s| > 1 { CollapseHead(s[1..], cs, rep); }
      }
    }
  }

  /** Collapsing runs of other characters keeps a text free of doubled `c`. */
  lemma {:induction false} CollapseKeepsNoDoubled(s: string, cs: set<char>, rep: char, c: char)
    requires NoDoubled(s, c) && c !in cs && rep != c
    ensures NoDoubled(Collapse(s, cs, rep), c)
    decreases |s|
  {
    if s != [] {
      if s[0] in cs {
        var l := LStrip(s, cs);
        assert NoDoubled(l, c) by {
          forall i | 0 <= i < |l| - 1 ensures !(l[i] == c && l[i + 1] == c) {
            assert l[i] == s[|s| - |l| + i] && l[i + 1] == s[|s| - |l| + i + 1];
          }
        }
        CollapseKeepsNoDoubled(l, cs, rep, c);
      } else {
        assert NoDoubled(s[1..], c) by {
          forall i | 0 <= i < |s| - 2 ensures !(s[1..][i] == c && s[1..][i + 1] == c) {
            assert s[1..][i] == s[i + 1] && s[1..][i + 1] == s[i + 2];
          }
        }
        CollapseKeepsNoDoubled(s[1..], cs, rep, c);
        if |s| > 1 { CollapseHead(s[1..], cs, rep); }
      }
    }
  }

  /** A slice of a text free of doubled `c` is free of them too. */
  lemma NoDoubledSlice(s: string, c: char, i: nat, j: nat)
    requires NoDoubled(s, c) && i <= j <= |s|
    ensures NoDoubled(s[i..j], c)
  {
    forall k | 0 <= k < j - i - 1 ensures !(s[i..j][k] == c && s[i..j][k + 1] == c) {
      assert s[i..j][k] == s[i + k] && s[i..j][k + 1] == s[i + k + 1];
    }
  }

  /** Collapsing runs of one character in a text with no doubled occurrence changes nothing. */
  lemma {:induction false} CollapseSingleton(s: string, c: char)
    requires NoDoubled(s, c)
    ensures Collapse(s, {c}, c) == s
    decreases |s|
  {
    if s != [] {
      var t := s[1..];
      NoDoubledSlice(s, c, 1, |s|);
      CollapseSingleton(t, c);
      assert s == [s[0]] + t;
      if s[0] == c {
        assert t == [] || t[0] != c by {
          if t != [] { assert t[0] == s[1]; }
        }
        LStripUnchanged(t, {c});
        assert Collapse(s, {c}, c) == [c] + Collapse(LStrip(t, {c}), {c}, c);
      } else {
        assert Collapse(s, {c}, c) == [s[0]] + Collapse(t, {c}, c);
      }
    }
  }

  // ---------------------------------------------------------------- numbers

  /** `str(n)` for a natural number. */
  function NatToString(n: nat): (r: string)
    ensures IsDigits(r)
  {
    if n < 10 then [('0' as int + n) as char]
    else NatToString(n / 10) + [('0' as int + n % 10) as char]
  }

  /** `int(s)` for a text of decimal digits. */
  function DigitsValue(s: string): nat
    requires forall i :: 0 <= i < |s| ==> IsDigit(s[i])
  {
    if s == [] then 0
    else
      assert IsDigit(s[|s| - 1]);
      10 * DigitsValue(s[..|s| - 1]) + (s[|s| - 1] as int - '0' as int)
  }

  /** Reading back the decimal text of a number gives the number. */
  lemma {:induction false} NatToStringValue(n: nat)
    ensures DigitsValue(NatToString(n)) == n
  {
    if n >= 10 {
      NatToStringValue(n / 10);
      var s := NatToString(n);
      assert s[..|s| - 1] == NatToString(n / 10);
    }
  }

  /** `str(n)` for an integer. */
  function IntToString(n: int): string
  {
    if n < 0 then "-" + NatToString(-n) else NatToString(n)
  }
}
