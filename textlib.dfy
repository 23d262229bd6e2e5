/**
 * Stand-ins for the Unicode libraries the tool calls: `unicodedata.normalize('NFKD', s)`
 * (Unicode Standard Annex #15), `unicodedata.combining(c)` and `unidecode(s)`.
 * They are defined for the Latin-1 letters, the part of Unicode that Portuguese page
 * titles use; every other character is left as it is (NFKD) or dropped (unidecode).
 */
module TextLib {
  import opened PyStr

  /** Base letters of U+00C0..U+00DD in order; `-` marks a letter without a canonical decomposition. */
  const Bases: string := "AAAAAA-CEEEEIIII-NOOOOO--UUUUY"

  /** The combining mark that follows each base letter in `Bases`. */
  const Marks: seq<char> :=
    ['\U{0300}', '\U{0301}', '\U{0302}', '\U{0303}', '\U{0308}', '\U{030A}', ' ', '\U{0327}',
     '\U{0300}', '\U{0301}', '\U{0302}', '\U{0308}', '\U{0300}', '\U{0301}', '\U{0302}', '\U{0308}',
     ' ', '\U{0303}', '\U{0300}', '\U{0301}', '\U{0302}', '\U{0303}', '\U{0308}', ' ', ' ',
     '\U{0300}', '\U{0301}', '\U{0302}', '\U{0308}', '\U{0301}']

  /** `unicodedata.combining(c) != 0` for the combining diacritical marks block. */
  predicate IsCombining(c: char) { '\U{0300}' <= c <= '\U{036F}' }

  /** Position of a decomposable Latin-1 letter in `Bases`, if it has one. */
  function LatinIndex(c: char): (k: int)
    ensures -1 <= k < |Bases|
    ensures k >= 0 ==> Bases[k] != '-' && IsCombining(Marks[k])
  {
    var k := if '\U{00C0}' <= c <= '\U{00DD}' then c as int - 0xC0
             else if '\U{00E0}' <= c <= '\U{00FD}' then c as int - 0xE0
             else -1;
    if k >= 0 && Bases[k] != '-' then k else -1
  }

  /** The canonical decomposition of one character. */
  function Decompose(c: char): (r: string)
    ensures |r| >= 1
    ensures c as int < 128 ==> r == [c]
    ensures forall i :: 1 <= i < |r| ==> IsCombining(r[i])
    ensures r[0] as int < 128 || r == [c]
  {
    if c == '\U{00FF}' then ['y', '\U{0308}']
    else
      var k := LatinIndex(c);
      if k < 0 then [c]
      else [if c >= '\U{00E0}' then LowerChar(Bases[k]) else Bases[k], Marks[k]]
  }

  /** `unicodedata.normalize('NFKD', s)`. */
  function Nfkd(s: string): string
  {
    if s == [] then [] else Decompose(s[0]) + Nfkd(s[1..])
  }

  predicate IsAscii(s: string) { forall i :: 0 <= i < |s| ==> s[i] as int < 128 }

  lemma {:induction false} NfkdAscii(s: string)
    requires IsAscii(s)
    ensures Nfkd(s) == s
  {
    if s != [] {
      NfkdAscii(s[1..]);
      assert s == [s[0]] + s[1..];
    }
  }

  /** The characters of `s` that are not combining marks (the comprehension over `unicodedata.combining`). */
  function DropCombining(s: string): (r: string)
    ensures forall i :: 0 <= i < |r| ==> !IsCombining(r[i])
  {
    if s == [] then [] else (if IsCombining(s[0]) then [] else [s[0]]) + DropCombining(s[1..])
  }

  /** The ASCII transliteration of one character. */
  function Transliterate(c: char): (r: string)
    ensures IsAscii(r)
  {
    if c as int < 128 then [c]
    else if c == '\U{00A0}' then " "
    else if c == '\U{00DF}' then "ss"
    else if c == '\U{00C6}' then "AE"
    else if c == '\U{00E6}' then "ae"
    else if c == '\U{00D8}' then "O"
    else if c == '\U{00F8}' then "o"
    else if c == '\U{00D0}' then "D"
    else if c == '\U{00F0}' then "d"
    else if c == '\U{00DE}' then "Th"
    else if c == '\U{00FE}' then "th"
    else
      var d := Decompose(c);
      if d[0] as int < 128 then [d[0]] else []
  }

  /** `unidecode(s)`: an ASCII rendering of `s`. */
  function Unidecode(s: string): (r: string)
    ensures IsAscii(r)
  {
    if s == [] then [] else Transliterate(s[0]) + Unidecode(s[1..])
  }

  /** `s.encode('ascii', 'ignore').decode()`: the ASCII characters of `s`, in order. */
  function AsciiOnly(s: string): (r: string)
    ensures IsAscii(r)
    ensures |r| <= |s|
  {
    if s == [] then [] else (if s[0] as int < 128 then [s[0]] else []) + AsciiOnly(s[1..])
  }
}
