/**
 * The word casing shared by folder names and page names: each word of
 * `title.strip().split()` is lower-cased, then upper-cased if it is an
 * acronym, kept lower-case if it is a connective after the first word,
 * and capitalised otherwise.
 */
module WordCase {
  import opened PyStr

  /** Acronyms that are always written in capitals. */
  const UpperWords: set<string> := {"df", "gdf", "sei", "cig"}

  /** `format_word(word, index)` with the connectives `lowerWords`. */
  function FormatWord(word: string, index: nat, lowerWords: set<string>): string
  {
    var w := Lower(word);
    if w in UpperWords then Upper(w)
    else if w in lowerWords && index > 0 then w
    else Capitalize(w)
  }

  /** `[format_word(w, i) for i, w in enumerate(words)]`. */
  function FormatWords(words: seq<string>, lowerWords: set<string>): (r: seq<string>)
    ensures |r| == |words|
  {
    seq(|words|, i requires 0 <= i < |words| => FormatWord(words[i], i, lowerWords))
  }

  lemma FormatWordIsWord(word: string, index: nat, lowerWords: set<string>)
    requires IsWord(word)
    ensures IsWord(FormatWord(word, index, lowerWords))
  {
    CaseKeepsWords(word);
    CaseKeepsWords(Lower(word));
  }

  /**
   * Joining the formatted words with single spaces keeps the words apart: splitting the
   * result gives one formatted word per input word, in order.
   */
  lemma {:induction false} FormattedWordsSplit(words: seq<string>, lowerWords: set<string>)
    requires forall i :: 0 <= i < |words| ==> IsWord(words[i])
    ensures SplitWs(Join(FormatWords(words, lowerWords), " ")) == FormatWords(words, lowerWords)
  {
    var f := FormatWords(words, lowerWords);
    forall i | 0 <= i < |f| ensures IsWord(f[i]) {
      FormatWordIsWord(words[i], i, lowerWords);
    }
    SplitJoinWords(f);
  }
}
