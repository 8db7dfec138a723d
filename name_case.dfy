/**
 * `NameCase::format`: proper casing of personal names. The name is
 * lower-cased, then split on each delimiter in turn; every word is
 * re-cased and the words are joined back on the delimiter.
 */
module NameCasing {
  import opened Wrappers
  import opened Text

  /** The default delimiters, in the order the passes run. */
  const DEFAULT_DELIMITERS: seq<string> :=
    [" ", "-", "O'", "O’", "L'", "L’", "D'", "D’", "St.", "Mc", "Mac", "(", "\"", "*", "."]

  /** Words (and delimiters) kept in lower case by default. */
  const DEFAULT_FORCE_LOWERCASE: seq<string> :=
    ["the", "van", "den", "von", "und", "der", "de", "da", "of", "and", "l'", "l’", "d'", "d’"]

  /** Words written fully in upper case by default. */
  const DEFAULT_FORCE_UPPERCASE: seq<string> :=
    ["II", "III", "IV", "VI", "VII", "VIII", "IX"]

  /** `array_map('strtolower', $list)`. */
  function LowerAll(list: seq<string>): (r: seq<string>)
    ensures |r| == |list|
    ensures forall i :: 0 <= i < |list| ==> r[i] == Lower(list[i])
  {
    seq(|list|, i requires 0 <= i < |list| => Lower(list[i]))
  }

  /** `array_map('strtoupper', $list)`. */
  function UpperAll(list: seq<string>): (r: seq<string>)
    ensures |r| == |list|
    ensures forall i :: 0 <= i < |list| ==> r[i] == Upper(list[i])
  {
    seq(|list|, i requires 0 <= i < |list| => Upper(list[i]))
  }

  /**
   * One word of a pass: fully upper-cased when its upper-case form is a
   * forced upper-case word, left alone when it is a forced lower-case word,
   * and given an upper-case first letter otherwise.
   */
  function Recase(word: string, lower: seq<string>, upper: seq<string>): string
  {
    if Upper(word) in upper then Upper(word)
    else if word !in lower then UcFirst(word)
    else word
  }

  /** Every word of a pass re-cased, in order. */
  function RecaseAll(words: seq<string>, lower: seq<string>, upper: seq<string>): (r: seq<string>)
    ensures |r| == |words|
    ensures forall i :: 0 <= i < |words| ==> r[i] == Recase(words[i], lower, upper)
  {
    seq(|words|, i requires 0 <= i < |words| => Recase(words[i], lower, upper))
  }

  /** The delimiter a pass rejoins with: lower-cased when that form is a forced lower-case word. */
  function JoinDelimiter(delimiter: string, lower: seq<string>): string
  {
    if Lower(delimiter) in lower then Lower(delimiter) else delimiter
  }

  /** One pass of the outer loop: explode, re-case every word, join. */
  function Pass(s: string, delimiter: string, lower: seq<string>, upper: seq<string>): string
    requires delimiter != ""
  {
    Join(RecaseAll(Split(s, delimiter), lower, upper), JoinDelimiter(delimiter, lower))
  }

  /** The passes for `delimiters` in order; `None` once a delimiter is empty, which `explode` rejects. */
  function Passes(s: string, delimiters: seq<string>, lower: seq<string>, upper: seq<string>): Option<string>
  {
    if delimiters == [] then Some(s)
    else
      match Passes(s, delimiters[..|delimiters| - 1], lower, upper)
      case None => None
      case Some(t) =>
        var d := delimiters[|delimiters| - 1];
        if d == "" then None else Some(Pass(t, d, lower, upper))
  }

  /** `format($str, $delimiters, $forceLowercase, $forceUppercase)`, a `None` argument meaning PHP's `null`. */
  function FormatSpec(str: string, delimiters: Option<seq<string>>, forceLowercase: Option<seq<string>>,
                      forceUppercase: Option<seq<string>>): Option<string>
  {
    Passes(Lower(str), delimiters.GetOr(DEFAULT_DELIMITERS),
           LowerAll(forceLowercase.GetOr(DEFAULT_FORCE_LOWERCASE)),
           UpperAll(forceUppercase.GetOr(DEFAULT_FORCE_UPPERCASE)))
  }

  /** Once a pass fails, so does every longer run of passes. */
  lemma {:induction false} PassesFailureSticks(s: string, delimiters: seq<string>, k: nat, lower: seq<string>, upper: seq<string>)
    requires k <= |delimiters|
    requires Passes(s, delimiters[..k], lower, upper) == None
    ensures Passes(s, delimiters, lower, upper) == None
    decreases |delimiters| - k
  {
    if k < |delimiters| {
      assert delimiters[..k + 1][..k] == delimiters[..k];
      PassesFailureSticks(s, delimiters, k + 1, lower, upper);
    } else {
      assert delimiters[..k] == delimiters;
    }
  }

  /** Re-casing a word changes the case of its letters and nothing else. */
  lemma RecaseKeepsLetters(word: string, lower: seq<string>, upper: seq<string>)
    ensures Lower(Recase(word, lower, upper)) == Lower(word)
  {
    CaseChangesAreInvisibleToLower(word);
  }

  /**
   * A pass loses nothing: exploding and joining on the same delimiter gives
   * the text back, and re-casing words or the delimiter only changes case.
   */
  lemma PassKeepsLetters(s: string, delimiter: string, lower: seq<string>, upper: seq<string>)
    requires delimiter != ""
    ensures Lower(Pass(s, delimiter, lower, upper)) == Lower(s)
    ensures |Pass(s, delimiter, lower, upper)| == |s|
  {
    var words := Split(s, delimiter);
    var jd := JoinDelimiter(delimiter, lower);
    RecaseAllKeepsLetters(words, lower, upper, delimiter);
    LowerJoin(RecaseAll(words, lower, upper), jd);
    LowerJoin(RecaseAll(words, lower, upper), delimiter);
    assert Lower(jd) == Lower(delimiter) by {
      CaseChangesAreInvisibleToLower(delimiter);
    }
    SplitJoin(s, delimiter);
    assert |Lower(Pass(s, delimiter, lower, upper))| == |Lower(s)|;
  }

  /**
   * Re-casing the words of a pass only changes case: the lower-cased words
   * are unchanged, and so is the lower-cased text they join into.
   */
  lemma RecaseAllKeepsLetters(words: seq<string>, lower: seq<string>, upper: seq<string>, sep: string)
    ensures LowerAll(RecaseAll(words, lower, upper)) == LowerAll(words)
    ensures Lower(Join(RecaseAll(words, lower, upper), sep)) == Lower(Join(words, sep))
  {
    var recased := RecaseAll(words, lower, upper);
    forall i | 0 <= i < |words| ensures Lower(recased[i]) == Lower(words[i]) {
      RecaseKeepsLetters(words[i], lower, upper);
    }
    assert LowerAll(recased) == LowerAll(words);
    LowerJoin(recased, sep);
    LowerJoin(words, sep);
  }

  /** Normalising a forced lower-case list twice is normalising it once: its members are already lower case. */
  lemma LowerAllIdempotent(list: seq<string>)
    ensures LowerAll(LowerAll(list)) == LowerAll(list)
  {
    forall i | 0 <= i < |list| ensures Lower(Lower(list[i])) == Lower(list[i]) {
      CaseChangesAreInvisibleToLower(list[i]);
    }
  }

  /** Normalising a forced upper-case list twice is normalising it once: its members are already upper case. */
  lemma UpperAllIdempotent(list: seq<string>)
    ensures UpperAll(UpperAll(list)) == UpperAll(list)
  {
    forall i | 0 <= i < |list| ensures Upper(Upper(list[i])) == Upper(list[i]) {
      assert forall c: char :: UpperChar(UpperChar(c)) == UpperChar(c);
    }
  }

  /**
   * The case in which a caller writes the forced lists does not matter:
   * `format` gives the same result for a list as for its normalised form.
   */
  lemma FormatNormalisesLists(str: string, delimiters: Option<seq<string>>, lower: seq<string>, upper: seq<string>)
    ensures FormatSpec(str, delimiters, Some(lower), Some(upper))
         == FormatSpec(str, delimiters, Some(LowerAll(lower)), Some(UpperAll(upper)))
  {
    LowerAllIdempotent(lower);
    UpperAllIdempotent(upper);
  }

  /**
   * The passes fail exactly when some delimiter is empty; otherwise the
   * result has the input's letters, in the input's order, up to case.
   */
  lemma {:induction false} PassesKeepLetters(s: string, delimiters: seq<string>, lower: seq<string>, upper: seq<string>)
    ensures Passes(s, delimiters, lower, upper).None? <==> "" in delimiters
    ensures Passes(s, delimiters, lower, upper).Some? ==>
      var r := Passes(s, delimiters, lower, upper).value;
      Lower(r) == Lower(s) && |r| == |s|
  {
    if delimiters != [] {
      var init := delimiters[..|delimiters| - 1];
      var d := delimiters[|delimiters| - 1];
      assert delimiters == init + [d];
      PassesKeepLetters(s, init, lower, upper);
      match Passes(s, init, lower, upper)
      case None =>
      case Some(t) =>
        if d != "" {
          PassKeepsLetters(t, d, lower, upper);
        }
    }
  }

  /**
   * `format` keeps every letter of the name and only changes case, so the
   * result has the name's length; it depends on the name only through its
   * lower-case form ("TIM MCLEOD" and "tim mcleod" give the same); and it
   * fails exactly when an empty delimiter is given.
   */
  lemma FormatKeepsLetters(str: string, other: string, delimiters: Option<seq<string>>,
                           forceLowercase: Option<seq<string>>, forceUppercase: Option<seq<string>>)
    ensures FormatSpec(str, delimiters, forceLowercase, forceUppercase).None? <==>
      delimiters.Some? && "" in delimiters.value
    ensures FormatSpec(str, delimiters, forceLowercase, forceUppercase).Some? ==>
      var r := FormatSpec(str, delimiters, forceLowercase, forceUppercase).value;
      Lower(r) == Lower(str) && |r| == |str|
    ensures Lower(other) == Lower(str) ==>
      FormatSpec(other, delimiters, forceLowercase, forceUppercase) == FormatSpec(str, delimiters, forceLowercase, forceUppercase)
  {
    var ds := delimiters.GetOr(DEFAULT_DELIMITERS);
    var lower := LowerAll(forceLowercase.GetOr(DEFAULT_FORCE_LOWERCASE));
    var upper := UpperAll(forceUppercase.GetOr(DEFAULT_FORCE_UPPERCASE));
    PassesKeepLetters(Lower(str), ds, lower, upper);
    CaseChangesAreInvisibleToLower(str);
    assert "" !in DEFAULT_DELIMITERS;
  }

  /** `format`: lower-case the name, pick the lists (the defaults for `null`), run the passes. */
  method Format(str: string, delimiters: Option<seq<string>>, forceLowercase: Option<seq<string>>,
                forceUppercase: Option<seq<string>>) returns (r: Option<string>)
    ensures r == FormatSpec(str, delimiters, forceLowercase, forceUppercase)
  {
    var s := Lower(str);
    var ds := delimiters.GetOr(DEFAULT_DELIMITERS);
    var lower := LowerAll(forceLowercase.GetOr(DEFAULT_FORCE_LOWERCASE));
    var upper := UpperAll(forceUppercase.GetOr(DEFAULT_FORCE_UPPERCASE));
    r := RunPasses(s, ds, lower, upper);
  }

  /**
   * The nested loops of `format`: the outer one over the delimiters, the
   * inner one building `$newWords`.
   */
  method RunPasses(str: string, ds: seq<string>, lower: seq<string>, upper: seq<string>) returns (r: Option<string>)
    ensures r == Passes(str, ds, lower, upper)
  {
    var s := str;
    var k := 0;
    while k < |ds|
      invariant 0 <= k <= |ds|
      invariant Passes(str, ds[..k], lower, upper) == Some(s)
    {
      var delimiter := ds[k];
      assert ds[..k + 1][..k] == ds[..k];
      if delimiter == "" {
        PassesFailureSticks(str, ds, k + 1, lower, upper);
        return None;
      }
      var words := Split(s, delimiter);
      var newWords: seq<string> := [];
      var i := 0;
      while i < |words|
        invariant 0 <= i <= |words|
        invariant newWords == RecaseAll(words[..i], lower, upper)
      {
        var word := words[i];
        if Upper(word) in upper {
          word := Upper(word);
        } else if word !in lower {
          word := UcFirst(word);
        }
        assert RecaseAll(words[..i + 1], lower, upper) == newWords + [word];
        newWords := newWords + [word];
        i := i + 1;
      }
      assert words[..|words|] == words;
      if Lower(delimiter) in lower {
        delimiter := Lower(delimiter);
      }
      s := Join(newWords, delimiter);
      k := k + 1;
    }
    assert ds[..|ds|] == ds;
    return Some(s);
  }
}
