/**
 * Worked examples of `NameCase::format`, each following the passes of the
 * formatter one delimiter at a time.
 */
module NameCaseExamples {
  import opened Wrappers
  import opened Text
  import opened NameCasing

  /** The default lists are already in the case `format` maps them to. */
  lemma DefaultListsNormalised()
    ensures LowerAll(DEFAULT_FORCE_LOWERCASE) == DEFAULT_FORCE_LOWERCASE
    ensures UpperAll(DEFAULT_FORCE_UPPERCASE) == DEFAULT_FORCE_UPPERCASE
  {
    forall w | w in DEFAULT_FORCE_LOWERCASE ensures Lower(w) == w {
      LowerOfLowercase(w);
    }
    forall w | w in DEFAULT_FORCE_UPPERCASE ensures Upper(w) == w {
      UpperOfUppercase(w);
    }
    assert forall i :: 0 <= i < |DEFAULT_FORCE_LOWERCASE| ==> DEFAULT_FORCE_LOWERCASE[i] in DEFAULT_FORCE_LOWERCASE;
    assert forall i :: 0 <= i < |DEFAULT_FORCE_UPPERCASE| ==> DEFAULT_FORCE_UPPERCASE[i] in DEFAULT_FORCE_UPPERCASE;
  }

  /** A word is not in a list whose every member differs from it in length or first character. */
  lemma NotListed(w: string, list: seq<string>)
    requires forall x :: x in list ==> |x| != |w| || (|x| > 0 && |w| > 0 && x[0] != w[0])
    ensures w !in list
  {
  }

  /** As `NotListed`, telling words of equal length apart by their first two characters. */
  lemma NotListedByTwo(w: string, list: seq<string>)
    requires forall x :: x in list ==> |x| != |w| || (|x| >= 2 && |w| >= 2 && (x[0] != w[0] || x[1] != w[1]))
    ensures w !in list
  {
  }

  /** With the default lists, a word longer than four characters is in neither and is capitalised. */
  lemma LongWordCapitalised(w: string)
    requires |w| > 4
    ensures Recase(w, DEFAULT_FORCE_LOWERCASE, DEFAULT_FORCE_UPPERCASE) == [UpperChar(w[0])] + w[1..]
  {
    NotListed(Upper(w), DEFAULT_FORCE_UPPERCASE);
    NotListed(w, DEFAULT_FORCE_LOWERCASE);
  }

  /** A word that is in neither list gets an upper-case first letter. */
  lemma Capitalised(w: string, lower: seq<string>, upper: seq<string>)
    requires w != [] && Upper(w) !in upper && w !in lower
    ensures Recase(w, lower, upper) == [UpperChar(w[0])] + w[1..]
  {
  }

  /** A pass over a text that lacks the delimiter's first character and that re-casing leaves alone changes nothing. */
  lemma PassIdle(t: string, d: string, lower: seq<string>, upper: seq<string>)
    requires d != "" && d[0] !in t
    requires Recase(t, lower, upper) == t
    ensures Pass(t, d, lower, upper) == t
  {
    assert NoEarlyStart(t, d, |t|);
    SplitWhole(t, d);
    assert RecaseAll([t], lower, upper) == [t];
  }

  /** One more pass, when the passes so far succeeded and the next delimiter is not empty. */
  lemma PassesSnoc(s: string, done: seq<string>, d: string, t: string, lower: seq<string>, upper: seq<string>)
    requires d != "" && Passes(s, done, lower, upper) == Some(t)
    ensures Passes(s, done + [d], lower, upper) == Some(Pass(t, d, lower, upper))
  {
    assert (done + [d])[..|done|] == done;
  }

  /** Passes over delimiters whose first characters are absent from a settled text change nothing. */
  lemma {:induction false} PassesIdle(s: string, done: seq<string>, rest: seq<string>, t: string,
                                      lower: seq<string>, upper: seq<string>)
    requires Passes(s, done, lower, upper) == Some(t)
    requires Recase(t, lower, upper) == t
    requires forall i :: 0 <= i < |rest| ==> rest[i] != "" && rest[i][0] !in t
    ensures Passes(s, done + rest, lower, upper) == Some(t)
    decreases |rest|
  {
    if rest == [] {
      assert done + rest == done;
    } else {
      var d, tail := rest[0], rest[1..];
      assert done + rest == (done + [d]) + tail by {
        assert rest == [d] + tail;
      }
      assert d != "" && d[0] !in t;
      PassIdle(t, d, lower, upper);
      PassesSnoc(s, done, d, t, lower, upper);
      assert forall i :: 0 <= i < |tail| ==> tail[i] == rest[i + 1];
      PassesIdle(s, done + [d], tail, t, lower, upper);
    }
  }

  /** Two words with one space between them. */
  lemma TwoWords(a: string, b: string)
    requires ' ' !in a && ' ' !in b
    ensures Split(a + " " + b, " ") == [a, b]
  {
    SplitAfterFree(a, " ", b);
    SplitFree(b, " ");
  }

  /** Three words with one space between each. */
  lemma ThreeWords(a: string, b: string, c: string)
    requires ' ' !in a && ' ' !in b && ' ' !in c
    ensures Split(a + " " + b + " " + c, " ") == [a, b, c]
  {
    assert a + " " + b + " " + c == a + " " + (b + " " + c);
    SplitAfterFree(a, " ", b + " " + c);
    TwoWords(b, c);
  }

  /** Four words with one space between each. */
  lemma FourWords(a: string, b: string, c: string, e: string)
    requires ' ' !in a && ' ' !in b && ' ' !in c && ' ' !in e
    ensures Split(a + " " + b + " " + c + " " + e, " ") == [a, b, c, e]
  {
    assert a + " " + b + " " + c + " " + e == a + " " + (b + " " + c + " " + e);
    SplitAfterFree(a, " ", b + " " + c + " " + e);
    ThreeWords(b, c, e);
  }

  lemma RecaseBill()
    ensures Recase("bill", DEFAULT_FORCE_LOWERCASE, DEFAULT_FORCE_UPPERCASE) == "Bill"
  {
    assert Upper("bill") == "BILL";
    NotListed("BILL", DEFAULT_FORCE_UPPERCASE);
    NotListed("bill", DEFAULT_FORCE_LOWERCASE);
    Capitalised("bill", DEFAULT_FORCE_LOWERCASE, DEFAULT_FORCE_UPPERCASE);
  }

  lemma RecaseOConnor()
    ensures Recase("o'connor", DEFAULT_FORCE_LOWERCASE, DEFAULT_FORCE_UPPERCASE) == "O'connor"
  {
    assert Upper("o'connor") == "O'CONNOR";
    NotListed("O'CONNOR", DEFAULT_FORCE_UPPERCASE);
    NotListed("o'connor", DEFAULT_FORCE_LOWERCASE);
    Capitalised("o'connor", DEFAULT_FORCE_LOWERCASE, DEFAULT_FORCE_UPPERCASE);
  }

  /** A space is not a forced lower-case word, so a space pass rejoins with a space. */
  lemma SpaceJoinDelimiter()
    ensures JoinDelimiter(" ", DEFAULT_FORCE_LOWERCASE) == " "
  {
    assert Lower(" ") == " ";
    NotListed(" ", DEFAULT_FORCE_LOWERCASE);
  }

  /** `"bill o'connor"` split on spaces, each word re-cased with the default lists. */
  lemma BillOConnorSpacePass()
    ensures Pass("bill o'connor", " ", DEFAULT_FORCE_LOWERCASE, DEFAULT_FORCE_UPPERCASE) == "Bill O'connor"
  {
    BillOConnorSpaced();
    SpaceJoinDelimiter();
    TwoWordSpacePass("bill", "o'connor", DEFAULT_FORCE_LOWERCASE, DEFAULT_FORCE_UPPERCASE);
    RecaseBill();
    RecaseOConnor();
    BillOConnorCapitalised();
  }

  lemma BillOConnorCapitalised()
    ensures "Bill" + " " + "O'connor" == "Bill O'connor"
  {
  }

  /** With delimiters `[' ']`, `"bill o'connor"` becomes `"Bill O'connor"`. */
  lemma BillOConnorSpaceOnly()
    ensures FormatSpec("bill o'connor", Some([" "]), None, None) == Some("Bill O'connor")
  {
    var lo, up := DEFAULT_FORCE_LOWERCASE, DEFAULT_FORCE_UPPERCASE;
    var s := "bill o'connor";
    DefaultListsNormalised();
    LowerOfLowercase(s);
    BillOConnorSpacePass();
    PassesSnoc(s, [], " ", s, lo, up);
    assert FormatSpec(s, Some([" "]), None, None) == Passes(s, [" "], lo, up);
  }

  /** Every delimiter after the space starts with one of `-OLDSM("*.`. */
  lemma LaterDelimiterInitials()
    ensures forall i :: 1 <= i < |DEFAULT_DELIMITERS| ==>
      DEFAULT_DELIMITERS[i] != "" && DEFAULT_DELIMITERS[i][0] in "-OLDSM(\"*."
  {
  }

  /**
   * With the default lists, a name whose space pass gives `t` comes out as
   * `t` when `t` holds none of the characters the later delimiters start
   * with and re-casing `t` as a single word leaves it alone.
   */
  lemma DefaultsAfterSpacePass(str: string, t: string)
    requires Pass(Lower(str), " ", DEFAULT_FORCE_LOWERCASE, DEFAULT_FORCE_UPPERCASE) == t
    requires forall c :: c in t ==> c !in "-OLDSM(\"*."
    requires Recase(t, DEFAULT_FORCE_LOWERCASE, DEFAULT_FORCE_UPPERCASE) == t
    ensures FormatSpec(str, None, None, None) == Some(t)
  {
    var lo, up, ds := DEFAULT_FORCE_LOWERCASE, DEFAULT_FORCE_UPPERCASE, DEFAULT_DELIMITERS;
    var s := Lower(str);
    assert FormatSpec(str, None, None, None) == Passes(s, ds, lo, up) by {
      DefaultListsNormalised();
    }
    assert Passes(s, ds[..1], lo, up) == Some(t) by {
      PassesSnoc(s, [], " ", s, lo, up);
      assert ds[..1] == [] + [" "];
    }
    var rest := ds[1..];
    assert forall i :: 0 <= i < |rest| ==> rest[i] != "" && rest[i][0] !in t by {
      LaterDelimiterInitials();
      assert forall i :: 0 <= i < |rest| ==> rest[i] == ds[i + 1];
    }
    PassesIdle(s, ds[..1], rest, t, lo, up);
    assert ds[..1] + rest == ds;
  }

  lemma PaulVanDerKnaapWords()
    ensures Split("paul van der knaap", " ") == ["paul", "van", "der", "knaap"]
  {
    assert "paul van der knaap" == "paul" + " " + "van" + " " + "der" + " " + "knaap";
    FourWords("paul", "van", "der", "knaap");
  }

  /** A forced lower-case word that is not a forced upper-case word stays as it is. */
  lemma KeptLower(w: string, lower: seq<string>, upper: seq<string>)
    requires w in lower && Upper(w) !in upper
    ensures Recase(w, lower, upper) == w
  {
  }

  lemma RecasePaul()
    ensures Recase("paul", DEFAULT_FORCE_LOWERCASE, DEFAULT_FORCE_UPPERCASE) == "Paul"
  {
    assert Upper("paul") == "PAUL";
    NotListed("PAUL", DEFAULT_FORCE_UPPERCASE);
    NotListed("paul", DEFAULT_FORCE_LOWERCASE);
    Capitalised("paul", DEFAULT_FORCE_LOWERCASE, DEFAULT_FORCE_UPPERCASE);
  }

  lemma RecaseVan()
    ensures Recase("van", DEFAULT_FORCE_LOWERCASE, DEFAULT_FORCE_UPPERCASE) == "van"
  {
    assert Upper("van") == "VAN";
    assert "VAN" !in DEFAULT_FORCE_UPPERCASE;
    KeptLower("van", DEFAULT_FORCE_LOWERCASE, DEFAULT_FORCE_UPPERCASE);
  }

  lemma RecaseDer()
    ensures Recase("der", DEFAULT_FORCE_LOWERCASE, DEFAULT_FORCE_UPPERCASE) == "der"
  {
    assert Upper("der") == "DER";
    NotListed("DER", DEFAULT_FORCE_UPPERCASE);
    KeptLower("der", DEFAULT_FORCE_LOWERCASE, DEFAULT_FORCE_UPPERCASE);
  }

  lemma RecaseKnaap()
    ensures Recase("knaap", DEFAULT_FORCE_LOWERCASE, DEFAULT_FORCE_UPPERCASE) == "Knaap"
  {
    assert Upper("knaap") == "KNAAP";
    NotListed("KNAAP", DEFAULT_FORCE_UPPERCASE);
    NotListed("knaap", DEFAULT_FORCE_LOWERCASE);
    Capitalised("knaap", DEFAULT_FORCE_LOWERCASE, DEFAULT_FORCE_UPPERCASE);
  }

  lemma PaulVanDerKnaapRecased()
    ensures RecaseAll(["paul", "van", "der", "knaap"], DEFAULT_FORCE_LOWERCASE, DEFAULT_FORCE_UPPERCASE)
         == ["Paul", "van", "der", "Knaap"]
  {
    RecasePaul();
    RecaseVan();
    RecaseDer();
    RecaseKnaap();
  }

  lemma PaulVanDerKnaapJoined()
    ensures Join(["Paul", "van", "der", "Knaap"], " ") == "Paul van der Knaap"
  {
    var words := ["Paul", "van", "der", "Knaap"];
    assert words[1..] == ["van", "der", "Knaap"];
    assert words[1..][1..] == ["der", "Knaap"];
    assert words[1..][1..][1..] == ["Knaap"];
  }

  lemma PaulVanDerKnaapSpacePass()
    ensures Pass("paul van der knaap", " ", DEFAULT_FORCE_LOWERCASE, DEFAULT_FORCE_UPPERCASE) == "Paul van der Knaap"
  {
    PaulVanDerKnaapWords();
    PaulVanDerKnaapRecased();
    SpaceJoinDelimiter();
    PaulVanDerKnaapJoined();
  }

  lemma PaulVanDerKnaapSettled()
    ensures Recase("Paul van der Knaap", DEFAULT_FORCE_LOWERCASE, DEFAULT_FORCE_UPPERCASE) == "Paul van der Knaap"
  {
    var t := "Paul van der Knaap";
    NotListed(Upper(t), DEFAULT_FORCE_UPPERCASE);
    NotListed(t, DEFAULT_FORCE_LOWERCASE);
    Capitalised(t, DEFAULT_FORCE_LOWERCASE, DEFAULT_FORCE_UPPERCASE);
  }

  lemma PaulVanDerKnaapInitials()
    ensures forall c :: c in "Paul van der Knaap" ==> c !in "-OLDSM(\"*."
  {
    var t := "Paul van der Knaap";
    assert forall i :: 0 <= i < |t| ==> t[i] in "Paul vanderKnp";
  }

  /** `"paul van der knaap"` becomes `"Paul van der Knaap"` with the defaults. */
  lemma PaulVanDerKnaap()
    ensures FormatSpec("paul van der knaap", None, None, None) == Some("Paul van der Knaap")
  {
    LowerOfLowercase("paul van der knaap");
    PaulVanDerKnaapSpacePass();
    PaulVanDerKnaapSettled();
    PaulVanDerKnaapInitials();
    DefaultsAfterSpacePass("paul van der knaap", "Paul van der Knaap");
  }

  /** A space pass over two words: each word re-cased, rejoined with a space. */
  lemma TwoWordSpacePass(a: string, b: string, lower: seq<string>, upper: seq<string>)
    requires ' ' !in a && ' ' !in b && JoinDelimiter(" ", lower) == " "
    ensures Pass(a + " " + b, " ", lower, upper) == Recase(a, lower, upper) + " " + Recase(b, lower, upper)
  {
    TwoWords(a, b);
    var r := RecaseAll([a, b], lower, upper);
    assert Pass(a + " " + b, " ", lower, upper) == Join(r, " ");
    assert r[0] == Recase(a, lower, upper) && r[1..] == [Recase(b, lower, upper)];
    assert Join(r[1..], " ") == Recase(b, lower, upper);
  }

  /** With the space as the only delimiter, `format` is one space pass over the lower-cased name. */
  lemma SpaceOnly(str: string, forceLowercase: Option<seq<string>>, forceUppercase: Option<seq<string>>)
    ensures FormatSpec(str, Some([" "]), forceLowercase, forceUppercase)
         == Some(Pass(Lower(str), " ", LowerAll(forceLowercase.GetOr(DEFAULT_FORCE_LOWERCASE)),
                      UpperAll(forceUppercase.GetOr(DEFAULT_FORCE_UPPERCASE))))
  {
    var lower := LowerAll(forceLowercase.GetOr(DEFAULT_FORCE_LOWERCASE));
    var upper := UpperAll(forceUppercase.GetOr(DEFAULT_FORCE_UPPERCASE));
    PassesSnoc(Lower(str), [], " ", Lower(str), lower, upper);
  }

  lemma HenricViiiLowered()
    ensures Lower("hENRIC vIII") == "henric viii"
  {
  }

  /**
   * With the space as the only delimiter, a name whose lower-case form
   * `s`, under the resolved lists, passes to `t` comes out as `t`.
   */
  lemma SpaceOnlyGives(str: string, s: string, forceLowercase: Option<seq<string>>, forceUppercase: Option<seq<string>>,
                       lower: seq<string>, upper: seq<string>, t: string)
    requires Lower(str) == s
    requires LowerAll(forceLowercase.GetOr(DEFAULT_FORCE_LOWERCASE)) == lower
    requires UpperAll(forceUppercase.GetOr(DEFAULT_FORCE_UPPERCASE)) == upper
    requires Pass(s, " ", lower, upper) == t
    ensures FormatSpec(str, Some([" "]), forceLowercase, forceUppercase) == Some(t)
  {
    SpaceOnly(str, forceLowercase, forceUppercase);
  }

  lemma BillOConnorShouted()
    ensures Lower("BILL O'CONNOR") == "bill o'connor"
  {
  }

  lemma BillOConnorSpaced()
    ensures "bill o'connor" == "bill" + " " + "o'connor"
    ensures "BILL" + " " + "O'CONNOR" == "BILL O'CONNOR"
  {
  }

  lemma RecaseHenric()
    ensures Recase("henric", DEFAULT_FORCE_LOWERCASE, DEFAULT_FORCE_UPPERCASE) == "Henric"
  {
    assert Upper("henric") == "HENRIC";
    NotListed("HENRIC", DEFAULT_FORCE_UPPERCASE);
    NotListed("henric", DEFAULT_FORCE_LOWERCASE);
    Capitalised("henric", DEFAULT_FORCE_LOWERCASE, DEFAULT_FORCE_UPPERCASE);
  }

  lemma RecaseViii()
    ensures Recase("viii", DEFAULT_FORCE_LOWERCASE, DEFAULT_FORCE_UPPERCASE) == "VIII"
  {
    assert Upper("viii") == "VIII" == DEFAULT_FORCE_UPPERCASE[5];
  }

  lemma HenricViiiSpaced()
    ensures "henric viii" == "henric" + " " + "viii"
    ensures "Henric" + " " + "VIII" == "Henric VIII"
  {
  }

  lemma HenricViiiSpacePass()
    ensures Pass("henric viii", " ", DEFAULT_FORCE_LOWERCASE, DEFAULT_FORCE_UPPERCASE) == "Henric VIII"
  {
    HenricViiiSpaced();
    SpaceJoinDelimiter();
    TwoWordSpacePass("henric", "viii", DEFAULT_FORCE_LOWERCASE, DEFAULT_FORCE_UPPERCASE);
    RecaseHenric();
    RecaseViii();
  }

  lemma HenricViiiSettled()
    ensures Recase("Henric VIII", DEFAULT_FORCE_LOWERCASE, DEFAULT_FORCE_UPPERCASE) == "Henric VIII"
  {
    var t := "Henric VIII";
    NotListed(Upper(t), DEFAULT_FORCE_UPPERCASE);
    NotListed(t, DEFAULT_FORCE_LOWERCASE);
    Capitalised(t, DEFAULT_FORCE_LOWERCASE, DEFAULT_FORCE_UPPERCASE);
  }

  lemma HenricViiiInitials()
    ensures forall c :: c in "Henric VIII" ==> c !in "-OLDSM(\"*."
  {
    var t := "Henric VIII";
    assert forall i :: 0 <= i < |t| ==> t[i] in "Henric VI";
  }

  /** `"hENRIC vIII"` becomes `"Henric VIII"`: a forced upper-case word comes out in upper case whatever its input case. */
  lemma HenricViii()
    ensures FormatSpec("hENRIC vIII", None, None, None) == Some("Henric VIII")
  {
    HenricViiiLowered();
    HenricViiiSpacePass();
    HenricViiiSettled();
    HenricViiiInitials();
    DefaultsAfterSpacePass("hENRIC vIII", "Henric VIII");
  }

  lemma BillOConnorListNormal()
    ensures LowerAll(["bill", "o'connor"]) == ["bill", "o'connor"]
    ensures UpperAll(["BILL", "O'CONNOR"]) == ["BILL", "O'CONNOR"]
  {
    assert Lower("bill") == "bill" && Lower("o'connor") == "o'connor";
    assert Upper("BILL") == "BILL" && Upper("O'CONNOR") == "O'CONNOR";
  }

  lemma BillOConnorForcedLowerWords()
    ensures Recase("bill", ["bill", "o'connor"], DEFAULT_FORCE_UPPERCASE) == "bill"
    ensures Recase("o'connor", ["bill", "o'connor"], DEFAULT_FORCE_UPPERCASE) == "o'connor"
    ensures JoinDelimiter(" ", ["bill", "o'connor"]) == " "
  {
    assert Upper("bill") == "BILL";
    NotListed("BILL", DEFAULT_FORCE_UPPERCASE);
    assert Upper("o'connor") == "O'CONNOR";
    NotListed("O'CONNOR", DEFAULT_FORCE_UPPERCASE);
    assert Lower(" ") == " ";
  }

  /** Forcing both words to lower case: `"BILL O'CONNOR"` with `[' ']` and `["bill", "o'connor"]` gives `"bill o'connor"`. */
  lemma BillOConnorForcedLower()
    ensures FormatSpec("BILL O'CONNOR", Some([" "]), Some(["bill", "o'connor"]), None) == Some("bill o'connor")
  {
    var lo, up := ["bill", "o'connor"], DEFAULT_FORCE_UPPERCASE;
    assert Pass("bill o'connor", " ", lo, up) == "bill o'connor" by {
      BillOConnorForcedLowerWords();
      BillOConnorSpaced();
      TwoWordSpacePass("bill", "o'connor", lo, up);
    }
    BillOConnorShouted();
    BillOConnorListNormal();
    DefaultListsNormalised();
    SpaceOnlyGives("BILL O'CONNOR", "bill o'connor", Some(lo), None, lo, up, "bill o'connor");
  }

  lemma BillOConnorForcedUpperWords()
    ensures Recase("bill", DEFAULT_FORCE_LOWERCASE, ["BILL", "O'CONNOR"]) == "BILL"
    ensures Recase("o'connor", DEFAULT_FORCE_LOWERCASE, ["BILL", "O'CONNOR"]) == "O'CONNOR"
  {
    assert Upper("bill") == "BILL";
    assert Upper("o'connor") == "O'CONNOR";
  }

  lemma BillOConnorForcedUpperPass()
    ensures Pass("bill o'connor", " ", DEFAULT_FORCE_LOWERCASE, ["BILL", "O'CONNOR"]) == "BILL O'CONNOR"
  {
    BillOConnorForcedUpperWords();
    SpaceJoinDelimiter();
    BillOConnorSpaced();
    TwoWordSpacePass("bill", "o'connor", DEFAULT_FORCE_LOWERCASE, ["BILL", "O'CONNOR"]);
  }

  /** Forcing both words to upper case: `"bill o'connor"` with `[' ']` and `["BILL", "O'CONNOR"]` gives `"BILL O'CONNOR"`. */
  lemma BillOConnorForcedUpper()
    ensures FormatSpec("bill o'connor", Some([" "]), None, Some(["BILL", "O'CONNOR"])) == Some("BILL O'CONNOR")
  {
    var lo, up := DEFAULT_FORCE_LOWERCASE, ["BILL", "O'CONNOR"];
    BillOConnorForcedUpperPass();
    LowerOfLowercase("bill o'connor");
    BillOConnorListNormal();
    DefaultListsNormalised();
    SpaceOnlyGives("bill o'connor", "bill o'connor", None, Some(up), lo, up, "BILL O'CONNOR");
  }

  /** A pass whose delimiter cannot occur in `t` re-cases `t` as one word; a settled `t` is left alone. */
  lemma PassWholeIdle(t: string, d: string, lower: seq<string>, upper: seq<string>)
    requires d != "" && NoEarlyStart(t, d, |t|)
    requires Recase(t, lower, upper) == t
    ensures Pass(t, d, lower, upper) == t
  {
    SplitWhole(t, d);
    assert RecaseAll([t], lower, upper) == [t];
  }

  /** A pass that cuts once: both pieces re-cased, rejoined with the (possibly lower-cased) delimiter. */
  lemma TwoPiecePass(a: string, d: string, b: string, lower: seq<string>, upper: seq<string>)
    requires d != "" && Split(a + d + b, d) == [a, b]
    ensures Pass(a + d + b, d, lower, upper)
         == Recase(a, lower, upper) + JoinDelimiter(d, lower) + Recase(b, lower, upper)
  {
    var r := RecaseAll([a, b], lower, upper);
    assert r[0] == Recase(a, lower, upper) && r[1..] == [Recase(b, lower, upper)];
    assert Join(r[1..], JoinDelimiter(d, lower)) == Recase(b, lower, upper);
  }

  /** A one-word pass: the word re-cased on its own. */
  lemma OneWordPass(w: string, d: string, lower: seq<string>, upper: seq<string>)
    requires d != "" && d[0] !in w
    ensures Pass(w, d, lower, upper) == Recase(w, lower, upper)
  {
    NoStartBefore(w, [], d);
    assert w + [] == w;
    SplitWhole(w, d);
    assert RecaseAll([w], lower, upper) == [Recase(w, lower, upper)];
  }

  /** With the defaults, `format` runs every default delimiter over the lower-cased name. */
  lemma DefaultsFormat(str: string)
    ensures FormatSpec(str, None, None, None)
         == Passes(Lower(str), DEFAULT_DELIMITERS[..15], DEFAULT_FORCE_LOWERCASE, DEFAULT_FORCE_UPPERCASE)
  {
    DefaultListsNormalised();
    assert DEFAULT_DELIMITERS[..15] == DEFAULT_DELIMITERS;
  }

  /** The default delimiters the worked examples cut on. */
  lemma DelimitersAt()
    ensures |DEFAULT_DELIMITERS| == 15
    ensures forall i :: 0 <= i < 15 ==> DEFAULT_DELIMITERS[i] != ""
    ensures DEFAULT_DELIMITERS[0] == " " && DEFAULT_DELIMITERS[1] == "-"
    ensures DEFAULT_DELIMITERS[4] == "L'" && DEFAULT_DELIMITERS[5] == "L’"
    ensures DEFAULT_DELIMITERS[6] == "D'"
    ensures DEFAULT_DELIMITERS[9] == "Mc" && DEFAULT_DELIMITERS[10] == "Mac"
  {
  }

  /** The delimiters around the hyphen pass start with these characters. */
  lemma InitialsAroundHyphen()
    ensures forall i :: 2 <= i < 4 ==> DEFAULT_DELIMITERS[i] != "" && DEFAULT_DELIMITERS[i][0] in "O"
    ensures forall i :: 6 <= i < 15 ==> DEFAULT_DELIMITERS[i] != "" && DEFAULT_DELIMITERS[i][0] in "DSM(\"*."
  {
  }

  /** The delimiters around the `L'` pass start with these characters. */
  lemma InitialsAroundL()
    ensures forall i :: 1 <= i < 4 ==> DEFAULT_DELIMITERS[i] != "" && DEFAULT_DELIMITERS[i][0] in "-O"
    ensures forall i :: 6 <= i < 15 ==> DEFAULT_DELIMITERS[i] != "" && DEFAULT_DELIMITERS[i][0] in "DSM(\"*."
  {
  }

  /** The delimiters around the `D'` pass start with these characters. */
  lemma InitialsAroundD()
    ensures forall i :: 1 <= i < 6 ==> DEFAULT_DELIMITERS[i] != "" && DEFAULT_DELIMITERS[i][0] in "-OL"
    ensures forall i :: 7 <= i < 15 ==> DEFAULT_DELIMITERS[i] != "" && DEFAULT_DELIMITERS[i][0] in "DSM(\"*."
  {
  }

  /** The delimiters around the `Mc` pass start with these characters. */
  lemma InitialsAroundMc()
    ensures forall i :: 1 <= i < 9 ==> DEFAULT_DELIMITERS[i] != "" && DEFAULT_DELIMITERS[i][0] in "-OLDS"
    ensures forall i :: 11 <= i < 15 ==> DEFAULT_DELIMITERS[i] != "" && DEFAULT_DELIMITERS[i][0] in "(\"*."
  {
  }


  /** The first pass of a run. */
  lemma PassesFirst(s: string, ds: seq<string>, t: string, lo: seq<string>, up: seq<string>)
    requires 0 < |ds| && ds[0] != ""
    requires Pass(s, ds[0], lo, up) == t
    ensures Passes(s, ds[..1], lo, up) == Some(t)
  {
    PassesSnoc(s, [], ds[0], s, lo, up);
    assert ds[..1] == [] + [ds[0]];
  }

  /** One more pass of a run, the `k`th. */
  lemma PassesStep(s: string, ds: seq<string>, k: nat, t: string, u: string, lo: seq<string>, up: seq<string>)
    requires k < |ds| && ds[k] != ""
    requires Passes(s, ds[..k], lo, up) == Some(t)
    requires Pass(t, ds[k], lo, up) == u
    ensures Passes(s, ds[..k + 1], lo, up) == Some(u)
  {
    PassesSnoc(s, ds[..k], ds[k], t, lo, up);
    assert ds[..k] + [ds[k]] == ds[..k + 1];
  }

  /** The delimiters `k` to `m` start with characters in `initials`, none of which `t` holds. */
  lemma InitialsAbsent(ds: seq<string>, k: nat, m: nat, t: string, initials: string)
    requires forall i :: k <= i < m && i < |ds| ==> ds[i] != "" && ds[i][0] in initials
    requires forall c :: c in t ==> c !in initials
    ensures forall i :: k <= i < m && i < |ds| ==> ds[i] != "" && ds[i][0] !in t
  {
  }

  /** Passes `k` to `m` of a run change nothing when `t` is settled and holds none of their delimiters' first characters. */
  lemma {:induction false} PassesIdleRange(s: string, ds: seq<string>, k: nat, m: nat, t: string,
                                          lo: seq<string>, up: seq<string>)
    requires k <= m <= |ds|
    requires Passes(s, ds[..k], lo, up) == Some(t)
    requires Recase(t, lo, up) == t
    requires forall i :: k <= i < m ==> ds[i] != "" && ds[i][0] !in t
    ensures Passes(s, ds[..m], lo, up) == Some(t)
    decreases m - k
  {
    if k < m {
      assert NoEarlyStart(t, ds[k], |t|);
      PassesWholeIdle(s, ds, k, t, lo, up);
      PassesIdleRange(s, ds, k + 1, m, t, lo, up);
    }
  }

  /** A pass whose delimiter does not occur in a settled text changes nothing. */
  lemma PassesWholeIdle(s: string, ds: seq<string>, k: nat, t: string, lo: seq<string>, up: seq<string>)
    requires k < |ds|
    requires Passes(s, ds[..k], lo, up) == Some(t)
    requires Recase(t, lo, up) == t
    requires ds[k] != "" && NoEarlyStart(t, ds[k], |t|)
    ensures Passes(s, ds[..k + 1], lo, up) == Some(t)
  {
    PassWholeIdle(t, ds[k], lo, up);
    PassesStep(s, ds, k, t, t, lo, up);
  }

  /**
   * The first pass gives `t`, which no delimiter before the `k`th cuts
   * (their first characters are all in `before`), and the `k`th pass turns
   * it into `u`.
   */
  lemma PassesCutAt(s: string, ds: seq<string>, t: string, k: nat, u: string, before: string,
                    lo: seq<string>, up: seq<string>)
    requires 1 <= k < |ds| && ds[0] != "" && ds[k] != ""
    requires Pass(s, ds[0], lo, up) == t
    requires Recase(t, lo, up) == t
    requires forall c :: c in t ==> c !in before
    requires forall i :: 1 <= i < k ==> ds[i] != "" && ds[i][0] in before
    requires Pass(t, ds[k], lo, up) == u
    ensures Passes(s, ds[..k + 1], lo, up) == Some(u)
  {
    PassesFirst(s, ds, t, lo, up);
    InitialsAbsent(ds, 1, k, t, before);
    PassesIdleRange(s, ds, 1, k, t, lo, up);
    PassesStep(s, ds, k, t, u, lo, up);
  }

  /**
   * Once the passes before the `k`th give `u`, the `k`th pass (which meets
   * only false starts of its delimiter) and every later one (whose
   * delimiters start with characters in `after`) leave `u` alone.
   */
  lemma PassesFalseStartRest(s: string, ds: seq<string>, k: nat, u: string, after: string,
                             lo: seq<string>, up: seq<string>)
    requires k < |ds|
    requires Passes(s, ds[..k], lo, up) == Some(u)
    requires Recase(u, lo, up) == u
    requires ds[k] != "" && NoEarlyStart(u, ds[k], |u|)
    requires forall c :: c in u ==> c !in after
    requires forall i :: k < i < |ds| ==> ds[i] != "" && ds[i][0] in after
    ensures Passes(s, ds[..|ds|], lo, up) == Some(u)
  {
    PassesWholeIdle(s, ds, k, u, lo, up);
    InitialsAbsent(ds, k + 1, |ds|, u, after);
    PassesIdleRange(s, ds, k + 1, |ds|, u, lo, up);
  }

  /**
   * A run whose first pass gives `t`, whose `k`th pass cuts `t` into `u`, and
   * whose other passes leave the text alone: those before `k` start with
   * characters in `before`, the `k + 1`st meets only false starts in `u`, and
   * those after it start with characters in `after`.
   */
  lemma PassesCutThenFalseStart(s: string, ds: seq<string>, t: string, k: nat, u: string, before: string, after: string,
                                lo: seq<string>, up: seq<string>)
    requires 1 <= k && k + 1 < |ds| && ds[0] != "" && ds[k] != ""
    requires Pass(s, ds[0], lo, up) == t
    requires Recase(t, lo, up) == t
    requires forall c :: c in t ==> c !in before
    requires forall i :: 1 <= i < k ==> ds[i] != "" && ds[i][0] in before
    requires Pass(t, ds[k], lo, up) == u
    requires Recase(u, lo, up) == u
    requires ds[k + 1] != "" && NoEarlyStart(u, ds[k + 1], |u|)
    requires forall c :: c in u ==> c !in after
    requires forall i :: k + 1 < i < |ds| ==> ds[i] != "" && ds[i][0] in after
    ensures Passes(s, ds[..|ds|], lo, up) == Some(u)
  {
    PassesCutAt(s, ds, t, k, u, before, lo, up);
    PassesFalseStartRest(s, ds, k + 1, u, after, lo, up);
  }

  /**
   * With the defaults, a name whose space pass gives `t` and whose `k`th
   * pass gives `u` is formatted as `u` when no other pass cuts anything:
   * the first characters of the delimiters before `k` (`before`) are not
   * in `t`, those after `k` (`after`) are not in `u`.
   */
  lemma DefaultsOneCut(str: string, t: string, k: nat, cut: string, u: string, before: string, after: string)
    requires 1 <= k < 15
    requires Pass(Lower(str), " ", DEFAULT_FORCE_LOWERCASE, DEFAULT_FORCE_UPPERCASE) == t
    requires Recase(t, DEFAULT_FORCE_LOWERCASE, DEFAULT_FORCE_UPPERCASE) == t
    requires forall c :: c in t ==> c !in before
    requires forall i :: 1 <= i < k ==> DEFAULT_DELIMITERS[i] != "" && DEFAULT_DELIMITERS[i][0] in before
    requires DEFAULT_DELIMITERS[k] == cut && cut != ""
    requires Pass(t, cut, DEFAULT_FORCE_LOWERCASE, DEFAULT_FORCE_UPPERCASE) == u
    requires Recase(u, DEFAULT_FORCE_LOWERCASE, DEFAULT_FORCE_UPPERCASE) == u
    requires forall c :: c in u ==> c !in after
    requires forall i :: k < i < 15 ==> DEFAULT_DELIMITERS[i] != "" && DEFAULT_DELIMITERS[i][0] in after
    ensures FormatSpec(str, None, None, None) == Some(u)
  {
    var s, ds, lo, up := Lower(str), DEFAULT_DELIMITERS, DEFAULT_FORCE_LOWERCASE, DEFAULT_FORCE_UPPERCASE;
    DelimitersAt();
    PassesCutAt(s, ds, t, k, u, before, lo, up);
    InitialsAbsent(ds, k + 1, 15, u, after);
    PassesIdleRange(s, ds, k + 1, 15, u, lo, up);
    DefaultsFormat(str);
  }

  /**
   * As `DefaultsOneCut`, except that the pass after the cut, on `next`, meets
   * only false starts of `next` in `u`.
   */
  lemma DefaultsCutThenFalseStart(str: string, t: string, k: nat, cut: string, u: string, next: string,
                                  before: string, after: string)
    requires 1 <= k && k + 1 < 15
    requires Pass(Lower(str), " ", DEFAULT_FORCE_LOWERCASE, DEFAULT_FORCE_UPPERCASE) == t
    requires Recase(t, DEFAULT_FORCE_LOWERCASE, DEFAULT_FORCE_UPPERCASE) == t
    requires forall c :: c in t ==> c !in before
    requires forall i :: 1 <= i < k ==> DEFAULT_DELIMITERS[i] != "" && DEFAULT_DELIMITERS[i][0] in before
    requires DEFAULT_DELIMITERS[k] == cut && cut != ""
    requires Pass(t, cut, DEFAULT_FORCE_LOWERCASE, DEFAULT_FORCE_UPPERCASE) == u
    requires Recase(u, DEFAULT_FORCE_LOWERCASE, DEFAULT_FORCE_UPPERCASE) == u
    requires DEFAULT_DELIMITERS[k + 1] == next && next != "" && NoEarlyStart(u, next, |u|)
    requires forall c :: c in u ==> c !in after
    requires forall i :: k + 1 < i < 15 ==> DEFAULT_DELIMITERS[i] != "" && DEFAULT_DELIMITERS[i][0] in after
    ensures FormatSpec(str, None, None, None) == Some(u)
  {
    var s, ds, lo, up := Lower(str), DEFAULT_DELIMITERS, DEFAULT_FORCE_LOWERCASE, DEFAULT_FORCE_UPPERCASE;
    DelimitersAt();
    PassesCutThenFalseStart(s, ds, t, k, u, before, after, lo, up);
    DefaultsFormat(str);
  }

  lemma RecaseGeorge()
    ensures Recase("george", DEFAULT_FORCE_LOWERCASE, DEFAULT_FORCE_UPPERCASE) == "George"
    ensures Recase("George ", DEFAULT_FORCE_LOWERCASE, DEFAULT_FORCE_UPPERCASE) == "George "
  {
    assert Upper("george") == "GEORGE";
    NotListed("GEORGE", DEFAULT_FORCE_UPPERCASE);
    NotListed("george", DEFAULT_FORCE_LOWERCASE);
    Capitalised("george", DEFAULT_FORCE_LOWERCASE, DEFAULT_FORCE_UPPERCASE);
    NotListed(Upper("George "), DEFAULT_FORCE_UPPERCASE);
    NotListed("George ", DEFAULT_FORCE_LOWERCASE);
    Capitalised("George ", DEFAULT_FORCE_LOWERCASE, DEFAULT_FORCE_UPPERCASE);
  }

  lemma RecaseOnofrio()
    ensures Recase("d'onofrio", DEFAULT_FORCE_LOWERCASE, DEFAULT_FORCE_UPPERCASE) == "D'onofrio"
    ensures Recase("onofrio", DEFAULT_FORCE_LOWERCASE, DEFAULT_FORCE_UPPERCASE) == "Onofrio"
  {
    LongWordCapitalised("d'onofrio");
    LongWordCapitalised("onofrio");
  }

  /** `D'` lower-cases to the forced lower-case word `d'`, so its pass rejoins with `d'`. */
  lemma LowerDApostrophe()
    ensures JoinDelimiter("D'", DEFAULT_FORCE_LOWERCASE) == "d'"
  {
    assert Lower("D'") == "d'" == DEFAULT_FORCE_LOWERCASE[12];
  }

  lemma GeorgeDOnofrioPieces()
    ensures "george d'onofrio" == "george" + " " + "d'onofrio"
    ensures "George" + " " + "D'onofrio" == "George D'onofrio"
    ensures "George D'onofrio" == "George " + "D'" + "onofrio"
    ensures "George " + "d'" + "Onofrio" == "George d'Onofrio"
  {
  }

  lemma GeorgeDOnofrioSpacePass()
    ensures Pass("george d'onofrio", " ", DEFAULT_FORCE_LOWERCASE, DEFAULT_FORCE_UPPERCASE) == "George D'onofrio"
  {
    var lo, up := DEFAULT_FORCE_LOWERCASE, DEFAULT_FORCE_UPPERCASE;
    assert Pass("george" + " " + "d'onofrio", " ", lo, up) == Recase("george", lo, up) + " " + Recase("d'onofrio", lo, up) by {
      SpaceJoinDelimiter();
      TwoWordSpacePass("george", "d'onofrio", lo, up);
    }
    RecaseGeorge();
    RecaseOnofrio();
    GeorgeDOnofrioPieces();
  }

  /** The `D'` pass cuts the name once and rejoins it with the lower-cased `d'`. */
  lemma GeorgeDOnofrioApostrophePass()
    ensures Pass("George D'onofrio", "D'", DEFAULT_FORCE_LOWERCASE, DEFAULT_FORCE_UPPERCASE) == "George d'Onofrio"
  {
    var lo, up := DEFAULT_FORCE_LOWERCASE, DEFAULT_FORCE_UPPERCASE;
    assert Pass("George " + "D'" + "onofrio", "D'", lo, up)
        == Recase("George ", lo, up) + JoinDelimiter("D'", lo) + Recase("onofrio", lo, up) by {
      SplitAtFree("George ", "D'", "onofrio");
      TwoPiecePass("George ", "D'", "onofrio", lo, up);
    }
    RecaseGeorge();
    RecaseOnofrio();
    LowerDApostrophe();
    GeorgeDOnofrioPieces();
  }

  lemma GeorgeDOnofrioSettled()
    ensures Recase("George D'onofrio", DEFAULT_FORCE_LOWERCASE, DEFAULT_FORCE_UPPERCASE) == "George D'onofrio"
    ensures Recase("George d'Onofrio", DEFAULT_FORCE_LOWERCASE, DEFAULT_FORCE_UPPERCASE) == "George d'Onofrio"
  {
    var t, u := "George D'onofrio", "George d'Onofrio";
    NotListed(Upper(t), DEFAULT_FORCE_UPPERCASE);
    NotListed(t, DEFAULT_FORCE_LOWERCASE);
    Capitalised(t, DEFAULT_FORCE_LOWERCASE, DEFAULT_FORCE_UPPERCASE);
    NotListed(Upper(u), DEFAULT_FORCE_UPPERCASE);
    NotListed(u, DEFAULT_FORCE_LOWERCASE);
    Capitalised(u, DEFAULT_FORCE_LOWERCASE, DEFAULT_FORCE_UPPERCASE);
  }

  lemma GeorgeDOnofrioInitials()
    ensures forall c :: c in "George D'onofrio" ==> c !in "-OL"
  {
    var t := "George D'onofrio";
    assert forall i :: 0 <= i < |t| ==> t[i] in "George D'nfi";
  }

  lemma GeorgeDOnofrioLaterInitials()
    ensures forall c :: c in "George d'Onofrio" ==> c !in "DSM(\"*."
  {
    var u := "George d'Onofrio";
    assert forall i :: 0 <= i < |u| ==> u[i] in "George d'Onfi";
  }

  /**
   * `"george d'onofrio"` becomes `"George d'Onofrio"`: the `D'` pass capitalises
   * the word after the apostrophe and rejoins with `d'`, a forced lower-case word.
   */
  lemma GeorgeDOnofrio()
    ensures FormatSpec("george d'onofrio", None, None, None) == Some("George d'Onofrio")
  {
    LowerOfLowercase("george d'onofrio");
    GeorgeDOnofrioSpacePass();
    GeorgeDOnofrioSettled();
    GeorgeDOnofrioInitials();
    GeorgeDOnofrioLaterInitials();
    InitialsAroundD();
    DelimitersAt();
    GeorgeDOnofrioApostrophePass();
    DefaultsOneCut("george d'onofrio", "George D'onofrio", 6, "D'", "George d'Onofrio", "-OL", "DSM(\"*.");
  }



  /**
   * With the defaults: the space pass gives `t`, the hyphen pass cuts it into
   * `u`, and every later pass leaves `u` alone, the two `L` passes because
   * `u`'s only `L` is not followed by an apostrophe.
   */
  lemma DefaultsHyphenThenFalseStarts(str: string, t: string, u: string)
    requires Pass(Lower(str), " ", DEFAULT_FORCE_LOWERCASE, DEFAULT_FORCE_UPPERCASE) == t
    requires Pass(t, "-", DEFAULT_FORCE_LOWERCASE, DEFAULT_FORCE_UPPERCASE) == u
    requires Recase(u, DEFAULT_FORCE_LOWERCASE, DEFAULT_FORCE_UPPERCASE) == u
    requires forall c :: c in u ==> c !in "O"
    requires NoEarlyStart(u, "L'", |u|) && NoEarlyStart(u, "L’", |u|)
    requires forall c :: c in u ==> c !in "DSM(\"*."
    ensures FormatSpec(str, None, None, None) == Some(u)
  {
    var s, ds, lo, up := Lower(str), DEFAULT_DELIMITERS, DEFAULT_FORCE_LOWERCASE, DEFAULT_FORCE_UPPERCASE;
    DelimitersAt();
    InitialsAroundHyphen();
    PassesFirst(s, ds, t, lo, up);
    PassesStep(s, ds, 1, t, u, lo, up);
    InitialsAbsent(ds, 2, 4, u, "O");
    PassesIdleRange(s, ds, 2, 4, u, lo, up);
    PassesWholeIdle(s, ds, 4, u, lo, up);
    PassesFalseStartRest(s, ds, 5, u, "DSM(\"*.", lo, up);
    DefaultsFormat(str);
  }

  lemma RecaseTim()
    ensures Recase("tim", DEFAULT_FORCE_LOWERCASE, DEFAULT_FORCE_UPPERCASE) == "Tim"
  {
    assert Upper("tim") == "TIM";
    NotListed("TIM", DEFAULT_FORCE_UPPERCASE);
    NotListedByTwo("tim", DEFAULT_FORCE_LOWERCASE);
    Capitalised("tim", DEFAULT_FORCE_LOWERCASE, DEFAULT_FORCE_UPPERCASE);
  }

  lemma RecaseTimSpace()
    ensures Recase("Tim ", DEFAULT_FORCE_LOWERCASE, DEFAULT_FORCE_UPPERCASE) == "Tim "
  {
    NotListed(Upper("Tim "), DEFAULT_FORCE_UPPERCASE);
    NotListed("Tim ", DEFAULT_FORCE_LOWERCASE);
    Capitalised("Tim ", DEFAULT_FORCE_LOWERCASE, DEFAULT_FORCE_UPPERCASE);
  }

  lemma RecaseMcleod()
    ensures Recase("mcleod", DEFAULT_FORCE_LOWERCASE, DEFAULT_FORCE_UPPERCASE) == "Mcleod"
    ensures Recase("", DEFAULT_FORCE_LOWERCASE, DEFAULT_FORCE_UPPERCASE) == ""
  {
    LongWordCapitalised("mcleod");
    NotListed(Upper(""), DEFAULT_FORCE_UPPERCASE);
    NotListed("", DEFAULT_FORCE_LOWERCASE);
  }

  lemma RecaseLeod()
    ensures Recase("leod", DEFAULT_FORCE_LOWERCASE, DEFAULT_FORCE_UPPERCASE) == "Leod"
  {
    NotListed(Upper("leod"), DEFAULT_FORCE_UPPERCASE);
    NotListed("leod", DEFAULT_FORCE_LOWERCASE);
    Capitalised("leod", DEFAULT_FORCE_LOWERCASE, DEFAULT_FORCE_UPPERCASE);
  }

  /** `Mc` is not a forced lower-case word, so its pass rejoins with `Mc`. */
  lemma McJoinDelimiter()
    ensures JoinDelimiter("Mc", DEFAULT_FORCE_LOWERCASE) == "Mc"
  {
    assert Lower("Mc") == "mc";
    NotListed("mc", DEFAULT_FORCE_LOWERCASE);
  }

  lemma TimMcLeodPieces()
    ensures "tim mcleod" == "tim" + " " + "mcleod"
    ensures "Tim" + " " + "Mcleod" == "Tim Mcleod"
    ensures "Tim Mcleod" == "Tim " + "Mc" + "leod"
    ensures "Tim " + "Mc" + "Leod" == "Tim McLeod"
    ensures "Tim " + ["Mac"[0]] + "cLeod" + [] == "Tim McLeod"
  {
  }

  lemma TimMcLeodSpacePass()
    ensures Pass("tim mcleod", " ", DEFAULT_FORCE_LOWERCASE, DEFAULT_FORCE_UPPERCASE) == "Tim Mcleod"
  {
    var lo, up := DEFAULT_FORCE_LOWERCASE, DEFAULT_FORCE_UPPERCASE;
    assert Pass("tim" + " " + "mcleod", " ", lo, up) == Recase("tim", lo, up) + " " + Recase("mcleod", lo, up) by {
      SpaceJoinDelimiter();
      TwoWordSpacePass("tim", "mcleod", lo, up);
    }
    RecaseTim();
    RecaseMcleod();
    TimMcLeodPieces();
  }

  /** The `Mc` pass cuts `"Tim Mcleod"` once and capitalises the word after it. */
  lemma TimMcLeodMcPass()
    ensures Pass("Tim Mcleod", "Mc", DEFAULT_FORCE_LOWERCASE, DEFAULT_FORCE_UPPERCASE) == "Tim McLeod"
  {
    var lo, up := DEFAULT_FORCE_LOWERCASE, DEFAULT_FORCE_UPPERCASE;
    assert Pass("Tim " + "Mc" + "leod", "Mc", lo, up)
        == Recase("Tim ", lo, up) + JoinDelimiter("Mc", lo) + Recase("leod", lo, up) by {
      SplitAtFree("Tim ", "Mc", "leod");
      TwoPiecePass("Tim ", "Mc", "leod", lo, up);
    }
    RecaseTimSpace();
    RecaseLeod();
    McJoinDelimiter();
    TimMcLeodPieces();
  }

  lemma TimMcLeodSettled()
    ensures Recase("Tim Mcleod", DEFAULT_FORCE_LOWERCASE, DEFAULT_FORCE_UPPERCASE) == "Tim Mcleod"
    ensures Recase("Tim McLeod", DEFAULT_FORCE_LOWERCASE, DEFAULT_FORCE_UPPERCASE) == "Tim McLeod"
  {
    var t, u := "Tim Mcleod", "Tim McLeod";
    NotListed(Upper(t), DEFAULT_FORCE_UPPERCASE);
    NotListed(t, DEFAULT_FORCE_LOWERCASE);
    Capitalised(t, DEFAULT_FORCE_LOWERCASE, DEFAULT_FORCE_UPPERCASE);
    NotListed(Upper(u), DEFAULT_FORCE_UPPERCASE);
    NotListed(u, DEFAULT_FORCE_LOWERCASE);
    Capitalised(u, DEFAULT_FORCE_LOWERCASE, DEFAULT_FORCE_UPPERCASE);
  }

  lemma TimMcLeodInitials()
    ensures forall c :: c in "Tim Mcleod" ==> c !in "-OLDS"
    ensures forall c :: c in "Tim McLeod" ==> c !in "(\"*."
  {
    var t, u := "Tim Mcleod", "Tim McLeod";
    assert forall i :: 0 <= i < |t| ==> t[i] in "TimMcleod ";
    assert forall i :: 0 <= i < |u| ==> u[i] in "TimMcLeod ";
  }

  /** The `Mac` pass meets the `M` of `McLeod`, which is not followed by `a`. */
  lemma TimMcLeodNoMac()
    ensures NoEarlyStart("Tim McLeod", "Mac", |"Tim McLeod"|)
  {
    FalseStartOnly("Tim ", "cLeod", [], "Mac");
    TimMcLeodPieces();
  }

  /** `"tim mcleod"` becomes `"Tim McLeod"`: the `Mc` pass capitalises the letter after `Mc`. */
  lemma TimMcLeod()
    ensures FormatSpec("tim mcleod", None, None, None) == Some("Tim McLeod")
  {
    LowerOfLowercase("tim mcleod");
    TimMcLeodSpacePass();
    TimMcLeodMcPass();
    TimMcLeodSettled();
    TimMcLeodInitials();
    TimMcLeodNoMac();
    DelimitersAt();
    InitialsAroundMc();
    DefaultsCutThenFalseStart("tim mcleod", "Tim Mcleod", 9, "Mc", "Tim McLeod", "Mac", "-OLDS", "(\"*.");
  }

  /** `"TIM MCLEOD"` becomes `"Tim McLeod"` too: `format` only sees the lower-cased name. */
  lemma TimMcLeodShouted()
    ensures FormatSpec("TIM MCLEOD", None, None, None) == Some("Tim McLeod")
  {
    assert Lower("TIM MCLEOD") == Lower("tim mcleod") == "tim mcleod";
    FormatKeepsLetters("tim mcleod", "TIM MCLEOD", None, None, None);
    TimMcLeod();
  }

  lemma McLeodPieces()
    ensures "Mcleod" == "" + "Mc" + "leod"
    ensures "" + "Mc" + "Leod" == "McLeod"
    ensures "" + ["Mac"[0]] + "cLeod" + [] == "McLeod"
  {
  }

  /** The one-word space pass and the `Mc` pass over `"mcleod"`. */
  lemma McLeodPasses()
    ensures Pass("mcleod", " ", DEFAULT_FORCE_LOWERCASE, DEFAULT_FORCE_UPPERCASE) == "Mcleod"
    ensures Pass("Mcleod", "Mc", DEFAULT_FORCE_LOWERCASE, DEFAULT_FORCE_UPPERCASE) == "McLeod"
  {
    var lo, up := DEFAULT_FORCE_LOWERCASE, DEFAULT_FORCE_UPPERCASE;
    OneWordPass("mcleod", " ", lo, up);
    assert Pass("" + "Mc" + "leod", "Mc", lo, up)
        == Recase("", lo, up) + JoinDelimiter("Mc", lo) + Recase("leod", lo, up) by {
      SplitAtFree("", "Mc", "leod");
      TwoPiecePass("", "Mc", "leod", lo, up);
    }
    RecaseMcleod();
    RecaseLeod();
    McJoinDelimiter();
    McLeodPieces();
  }

  lemma McLeodSettled()
    ensures Recase("Mcleod", DEFAULT_FORCE_LOWERCASE, DEFAULT_FORCE_UPPERCASE) == "Mcleod"
    ensures Recase("McLeod", DEFAULT_FORCE_LOWERCASE, DEFAULT_FORCE_UPPERCASE) == "McLeod"
  {
    var t, u := "Mcleod", "McLeod";
    NotListed(Upper(t), DEFAULT_FORCE_UPPERCASE);
    NotListed(t, DEFAULT_FORCE_LOWERCASE);
    Capitalised(t, DEFAULT_FORCE_LOWERCASE, DEFAULT_FORCE_UPPERCASE);
    NotListed(Upper(u), DEFAULT_FORCE_UPPERCASE);
    NotListed(u, DEFAULT_FORCE_LOWERCASE);
    Capitalised(u, DEFAULT_FORCE_LOWERCASE, DEFAULT_FORCE_UPPERCASE);
  }

  lemma McLeodInitials()
    ensures forall c :: c in "Mcleod" ==> c !in "-OLDS"
    ensures forall c :: c in "McLeod" ==> c !in "(\"*."
    ensures NoEarlyStart("McLeod", "Mac", |"McLeod"|)
  {
    FalseStartOnly("", "cLeod", [], "Mac");
    McLeodPieces();
  }

  /** `"mcleod"`: one word, cut once by the `Mc` pass. */
  lemma McLeodLower()
    ensures FormatSpec("mcleod", None, None, None) == Some("McLeod")
  {
    LowerOfLowercase("mcleod");
    McLeodPasses();
    McLeodSettled();
    McLeodInitials();
    DelimitersAt();
    InitialsAroundMc();
    DefaultsCutThenFalseStart("mcleod", "Mcleod", 9, "Mc", "McLeod", "Mac", "-OLDS", "(\"*.");
  }

  /** The documented example: `"MCLEOD"` becomes `"McLeod"`. */
  lemma McLeodDocumented()
    ensures FormatSpec("MCLEOD", None, None, None) == Some("McLeod")
  {
    assert Lower("MCLEOD") == Lower("mcleod") == "mcleod";
    FormatKeepsLetters("mcleod", "MCLEOD", None, None, None);
    McLeodLower();
  }

  lemma RecaseLucas()
    ensures Recase("lucas", DEFAULT_FORCE_LOWERCASE, DEFAULT_FORCE_UPPERCASE) == "Lucas"
    ensures Recase("l'amour", DEFAULT_FORCE_LOWERCASE, DEFAULT_FORCE_UPPERCASE) == "L'amour"
  {
    LongWordCapitalised("lucas");
    LongWordCapitalised("l'amour");
  }

  lemma RecaseAmour()
    ensures Recase("Lucas ", DEFAULT_FORCE_LOWERCASE, DEFAULT_FORCE_UPPERCASE) == "Lucas "
    ensures Recase("amour", DEFAULT_FORCE_LOWERCASE, DEFAULT_FORCE_UPPERCASE) == "Amour"
  {
    LongWordCapitalised("Lucas ");
    LongWordCapitalised("amour");
  }

  /** `L'` lower-cases to the forced lower-case word `l'`, so its pass rejoins with `l'`. */
  lemma LowerLApostrophe()
    ensures JoinDelimiter("L'", DEFAULT_FORCE_LOWERCASE) == "l'"
  {
    assert Lower("L'") == "l'" == DEFAULT_FORCE_LOWERCASE[10];
  }

  lemma LucasLAmourPieces()
    ensures "lucas l'amour" == "lucas" + " " + "l'amour"
    ensures "Lucas" + " " + "L'amour" == "Lucas L'amour"
    ensures "Lucas L'amour" == "Lucas " + "L'" + "amour"
    ensures "" + ["L'"[0]] + "ucas " + "L'amour" == "Lucas L'amour"
    ensures "amour" + [] == "amour"
    ensures "Lucas " + "l'" + "Amour" == "Lucas l'Amour"
    ensures "" + ["L’"[0]] + "ucas l'Amour" + [] == "Lucas l'Amour"
  {
  }

  lemma LucasLAmourSpacePass()
    ensures Pass("lucas l'amour", " ", DEFAULT_FORCE_LOWERCASE, DEFAULT_FORCE_UPPERCASE) == "Lucas L'amour"
  {
    var lo, up := DEFAULT_FORCE_LOWERCASE, DEFAULT_FORCE_UPPERCASE;
    assert Pass("lucas" + " " + "l'amour", " ", lo, up) == Recase("lucas", lo, up) + " " + Recase("l'amour", lo, up) by {
      SpaceJoinDelimiter();
      TwoWordSpacePass("lucas", "l'amour", lo, up);
    }
    RecaseLucas();
    LucasLAmourPieces();
  }

  /**
   * The `L'` pass cuts `"Lucas L'amour"` at its one `L'` (the leading `L` is
   * a false start) and rejoins with the forced lower-case `l'`.
   */
  lemma LucasLAmourApostrophePass()
    ensures Pass("Lucas L'amour", "L'", DEFAULT_FORCE_LOWERCASE, DEFAULT_FORCE_UPPERCASE) == "Lucas l'Amour"
  {
    var lo, up := DEFAULT_FORCE_LOWERCASE, DEFAULT_FORCE_UPPERCASE;
    assert Pass("Lucas " + "L'" + "amour", "L'", lo, up)
        == Recase("Lucas ", lo, up) + JoinDelimiter("L'", lo) + Recase("amour", lo, up) by {
      LucasLAmourPieces();
      FalseStartOnly("", "ucas ", "L'amour", "L'");
      NoStartBefore("amour", [], "L'");
      SplitAtFirst("Lucas ", "L'", "amour");
      TwoPiecePass("Lucas ", "L'", "amour", lo, up);
    }
    RecaseAmour();
    LowerLApostrophe();
    LucasLAmourPieces();
  }

  lemma LucasLAmourSettled()
    ensures Recase("Lucas L'amour", DEFAULT_FORCE_LOWERCASE, DEFAULT_FORCE_UPPERCASE) == "Lucas L'amour"
    ensures Recase("Lucas l'Amour", DEFAULT_FORCE_LOWERCASE, DEFAULT_FORCE_UPPERCASE) == "Lucas l'Amour"
  {
    LongWordCapitalised("Lucas L'amour");
    LongWordCapitalised("Lucas l'Amour");
  }

  lemma LucasLAmourInitials()
    ensures forall c :: c in "Lucas L'amour" ==> c !in "-O"
    ensures forall c :: c in "Lucas l'Amour" ==> c !in "DSM(\"*."
  {
    var t, u := "Lucas L'amour", "Lucas l'Amour";
    assert forall i :: 0 <= i < |t| ==> t[i] in "Lucas 'mor";
    assert forall i :: 0 <= i < |u| ==> u[i] in "Lucas l'Amor";
  }

  /** The `L’` pass meets only the leading `L`, which no typographic apostrophe follows. */
  lemma LucasLAmourNoTypographic()
    ensures NoEarlyStart("Lucas l'Amour", "L’", |"Lucas l'Amour"|)
  {
    FalseStartOnly("", "ucas l'Amour", [], "L’");
    LucasLAmourPieces();
  }

  /** `"lucas l'amour"` becomes `"Lucas l'Amour"`: the `L'` pass rejoins with the forced lower-case `l'`. */
  lemma LucasLAmour()
    ensures FormatSpec("lucas l'amour", None, None, None) == Some("Lucas l'Amour")
  {
    LowerOfLowercase("lucas l'amour");
    LucasLAmourSpacePass();
    LucasLAmourApostrophePass();
    LucasLAmourSettled();
    LucasLAmourInitials();
    LucasLAmourNoTypographic();
    DelimitersAt();
    InitialsAroundL();
    DefaultsCutThenFalseStart("lucas l'amour", "Lucas L'amour", 4, "L'", "Lucas l'Amour", "L’", "-O", "DSM(\"*.");
  }

  lemma RecaseJeanLuc()
    ensures Recase("jean-luc", DEFAULT_FORCE_LOWERCASE, DEFAULT_FORCE_UPPERCASE) == "Jean-luc"
    ensures Recase("picard", DEFAULT_FORCE_LOWERCASE, DEFAULT_FORCE_UPPERCASE) == "Picard"
  {
    LongWordCapitalised("jean-luc");
    LongWordCapitalised("picard");
  }

  lemma RecaseLucPicard()
    ensures Recase("luc Picard", DEFAULT_FORCE_LOWERCASE, DEFAULT_FORCE_UPPERCASE) == "Luc Picard"
  {
    LongWordCapitalised("luc Picard");
  }

  lemma RecaseJean()
    ensures Recase("Jean", DEFAULT_FORCE_LOWERCASE, DEFAULT_FORCE_UPPERCASE) == "Jean"
  {
    NotListed(Upper("Jean"), DEFAULT_FORCE_UPPERCASE);
    NotListed("Jean", DEFAULT_FORCE_LOWERCASE);
    Capitalised("Jean", DEFAULT_FORCE_LOWERCASE, DEFAULT_FORCE_UPPERCASE);
  }

  /** The hyphen is not a forced lower-case word, so its pass rejoins with `-`. */
  lemma HyphenJoinDelimiter()
    ensures JoinDelimiter("-", DEFAULT_FORCE_LOWERCASE) == "-"
  {
    assert Lower("-") == "-";
    NotListed("-", DEFAULT_FORCE_LOWERCASE);
  }

  lemma JeanLucPieces()
    ensures "jean-luc picard" == "jean-luc" + " " + "picard"
    ensures "Jean-luc" + " " + "Picard" == "Jean-luc Picard"
    ensures "Jean-luc Picard" == "Jean" + "-" + "luc Picard"
    ensures "Jean" + "-" + "Luc Picard" == "Jean-Luc Picard"
    ensures "Jean-" + ["L'"[0]] + "uc Picard" + [] == "Jean-Luc Picard"
    ensures "Jean-" + ["L’"[0]] + "uc Picard" + [] == "Jean-Luc Picard"
  {
  }

  lemma JeanLucSpacePass()
    ensures Pass("jean-luc picard", " ", DEFAULT_FORCE_LOWERCASE, DEFAULT_FORCE_UPPERCASE) == "Jean-luc Picard"
  {
    var lo, up := DEFAULT_FORCE_LOWERCASE, DEFAULT_FORCE_UPPERCASE;
    assert Pass("jean-luc" + " " + "picard", " ", lo, up) == Recase("jean-luc", lo, up) + " " + Recase("picard", lo, up) by {
      SpaceJoinDelimiter();
      TwoWordSpacePass("jean-luc", "picard", lo, up);
    }
    RecaseJeanLuc();
    JeanLucPieces();
  }

  /** The hyphen pass cuts `"Jean-luc Picard"` once and capitalises what follows the hyphen. */
  lemma JeanLucHyphenPass()
    ensures Pass("Jean-luc Picard", "-", DEFAULT_FORCE_LOWERCASE, DEFAULT_FORCE_UPPERCASE) == "Jean-Luc Picard"
  {
    var lo, up := DEFAULT_FORCE_LOWERCASE, DEFAULT_FORCE_UPPERCASE;
    assert Pass("Jean" + "-" + "luc Picard", "-", lo, up)
        == Recase("Jean", lo, up) + JoinDelimiter("-", lo) + Recase("luc Picard", lo, up) by {
      SplitAtFree("Jean", "-", "luc Picard");
      TwoPiecePass("Jean", "-", "luc Picard", lo, up);
    }
    RecaseJean();
    RecaseLucPicard();
    HyphenJoinDelimiter();
    JeanLucPieces();
  }

  lemma JeanLucSettled()
    ensures Recase("Jean-Luc Picard", DEFAULT_FORCE_LOWERCASE, DEFAULT_FORCE_UPPERCASE) == "Jean-Luc Picard"
  {
    LongWordCapitalised("Jean-Luc Picard");
  }

  lemma JeanLucInitials()
    ensures forall c :: c in "Jean-Luc Picard" ==> c !in "O"
    ensures forall c :: c in "Jean-Luc Picard" ==> c !in "DSM(\"*."
  {
    var u := "Jean-Luc Picard";
    assert forall i :: 0 <= i < |u| ==> u[i] in "Jean-LucPird ";
  }

  /** Both `L` passes meet only the `L` of `Luc`, which no apostrophe follows. */
  lemma JeanLucNoApostrophe()
    ensures NoEarlyStart("Jean-Luc Picard", "L'", |"Jean-Luc Picard"|)
    ensures NoEarlyStart("Jean-Luc Picard", "L’", |"Jean-Luc Picard"|)
  {
    FalseStartOnly("Jean-", "uc Picard", [], "L'");
    FalseStartOnly("Jean-", "uc Picard", [], "L’");
    JeanLucPieces();
  }

  /** `"jean-luc picard"` becomes `"Jean-Luc Picard"`: the hyphen pass capitalises each half. */
  lemma JeanLucPicard()
    ensures FormatSpec("jean-luc picard", None, None, None) == Some("Jean-Luc Picard")
  {
    LowerOfLowercase("jean-luc picard");
    JeanLucSpacePass();
    JeanLucHyphenPass();
    JeanLucSettled();
    JeanLucInitials();
    JeanLucNoApostrophe();
    DefaultsHyphenThenFalseStarts("jean-luc picard", "Jean-luc Picard", "Jean-Luc Picard");
  }
}
