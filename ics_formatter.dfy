/**
 * The two helpers every iCalendar line goes through: the escaping of TEXT
 * values (a partial form of section 3.3.11 of RFC 5545: backslashes and line
 * breaks only, `;` and `,` are left alone) and the DATE / UTC DATE-TIME value
 * forms of sections 3.3.4 and 3.3.5 of RFC 5545.
 */
module IcsFormatter {
  import opened Wrappers
  import opened Text
  import opened Decimal

  /** The line terminator (PHP_EOL on a Unix host); every line of the output uses it. */
  const EOL: string := "\n"

  /**
   * `escape`: backslashes are doubled first, then every CRLF and then every
   * remaining EOL becomes the two characters `\n`.
   */
  function Escape(s: string): string
  {
    var doubled := ReplaceAll(s, "\\", "\\\\");
    var noCrLf := ReplaceAll(doubled, "\r\n", "\\n");
    ReplaceAll(noCrLf, EOL, "\\n")
  }

  /** Reference reading of the escaping, one character at a time, for text without CR. */
  function EscapeChar(c: char): string
  {
    if c == '\\' then "\\\\" else if c == '\n' then "\\n" else [c]
  }

  function EscapeChars(s: string): string
  {
    if s == [] then "" else EscapeChar(s[0]) + EscapeChars(s[1..])
  }

  /** The left-to-right decoder of escaped text: `\\` is a backslash and `\n` a line feed. */
  function Unescape(s: string): string
  {
    if |s| >= 2 && s[0] == '\\' && s[1] == '\\' then "\\" + Unescape(s[2..])
    else if |s| >= 2 && s[0] == '\\' && s[1] == 'n' then "\n" + Unescape(s[2..])
    else if s == [] then ""
    else [s[0]] + Unescape(s[1..])
  }

  function Count(s: string, c: char): nat
  {
    if s == [] then 0 else (if s[0] == c then 1 else 0) + Count(s[1..], c)
  }

  lemma {:induction false} DoublingKeepsCrOut(s: string)
    requires '\r' !in s
    ensures '\r' !in ReplaceAll(s, "\\", "\\\\")
  {
    if s != [] {
      DoublingKeepsCrOut(s[1..]);
    }
  }

  lemma {:induction false} LineFeedPassAfterDoubling(s: string)
    ensures ReplaceAll(ReplaceAll(s, "\\", "\\\\"), "\n", "\\n") == EscapeChars(s)
  {
    if s != [] {
      var head := if s[0] == '\\' then "\\\\" else [s[0]];
      assert s[..1] == [s[0]];
      assert ReplaceAll(s, "\\", "\\\\") == head + ReplaceAll(s[1..], "\\", "\\\\");
      ReplaceCharConcat(head, ReplaceAll(s[1..], "\\", "\\\\"), '\n', "\\n");
      LineFeedPassAfterDoubling(s[1..]);
      if s[0] == '\\' {
        assert ReplaceAll(head, "\n", "\\n") == "\\\\";
      } else {
        assert head[..1] == head;
        assert ReplaceAll(head, "\n", "\\n") == EscapeChar(s[0]);
      }
    }
  }

  /** Without CR, `escape` maps each character on its own: `\` to `\\`, LF to `\n`. */
  lemma EscapeIsCharwise(s: string)
    requires '\r' !in s
    ensures Escape(s) == EscapeChars(s)
  {
    var doubled := ReplaceAll(s, "\\", "\\\\");
    DoublingKeepsCrOut(s);
    ReplaceAbsent(doubled, "\r\n", "\\n");
    LineFeedPassAfterDoubling(s);
  }

  /** Text with no backslash, CR or LF passes through `escape` unchanged. */
  lemma EscapeIdentity(s: string)
    requires '\\' !in s && '\r' !in s && '\n' !in s
    ensures Escape(s) == s
  {
    ReplaceAbsent(s, "\\", "\\\\");
    ReplaceAbsent(s, "\r\n", "\\n");
    ReplaceAbsent(s, "\n", "\\n");
  }

  lemma {:induction false} LineFeedPassRemovesLineFeeds(s: string)
    ensures '\n' !in ReplaceAll(s, "\n", "\\n")
  {
    if s != [] {
      LineFeedPassRemovesLineFeeds(s[1..]);
    }
  }

  /** The escaped text never contains a line feed, so it cannot break the line it is on. */
  lemma EscapeHasNoLineFeed(s: string)
    ensures '\n' !in Escape(s)
  {
    LineFeedPassRemovesLineFeeds(ReplaceAll(ReplaceAll(s, "\\", "\\\\"), "\r\n", "\\n"));
  }

  lemma {:induction false} UnescapeEscapeChars(s: string)
    ensures Unescape(EscapeChars(s)) == s
  {
    if s != [] {
      UnescapeEscapeChars(s[1..]);
      var rest := EscapeChars(s[1..]);
      assert EscapeChars(s) == EscapeChar(s[0]) + rest;
      if s[0] == '\\' {
        assert (EscapeChar(s[0]) + rest)[2..] == rest;
      } else if s[0] == '\n' {
        assert (EscapeChar(s[0]) + rest)[2..] == rest;
      } else {
        assert (EscapeChar(s[0]) + rest)[1..] == rest;
      }
      assert s == [s[0]] + s[1..];
    }
  }

  /** Because backslashes are doubled before line feeds are replaced, decoding undoes `escape`. */
  lemma EscapeRoundTrip(s: string)
    requires '\r' !in s
    ensures Unescape(Escape(s)) == s
  {
    EscapeIsCharwise(s);
    UnescapeEscapeChars(s);
  }

  lemma {:induction false} EscapeCharsLength(s: string)
    requires '\n' !in s
    ensures |EscapeChars(s)| == |s| + Count(s, '\\')
  {
    if s != [] {
      EscapeCharsLength(s[1..]);
    }
  }

  /** On text without line breaks, `escape` adds exactly one character per backslash. */
  lemma EscapeLength(s: string)
    requires '\r' !in s && '\n' !in s
    ensures |Escape(s)| == |s| + Count(s, '\\')
  {
    EscapeIsCharwise(s);
    EscapeCharsLength(s);
  }

  // Dates and times: an instant already converted to UTC, as calendar components.

  datatype UtcDateTime = UtcDateTime(year: nat, month: nat, day: nat, hour: nat, minute: nat, second: nat)
  {
    /** A real instant of the Gregorian calendar with a four-digit year. */
    predicate Valid()
    {
      && year <= 9999
      && 1 <= month <= 12
      && 1 <= day <= DaysInMonth(year, month)
      && hour < 24 && minute < 60 && second < 60
    }
  }

  predicate IsLeapYear(y: nat)
  {
    (y % 4 == 0 && y % 100 != 0) || y % 400 == 0
  }

  function DaysInMonth(y: nat, m: nat): nat
  {
    if m == 2 then (if IsLeapYear(y) then 29 else 28)
    else if m == 4 || m == 6 || m == 9 || m == 11 then 30
    else 31
  }

  /** The PHP date format 'Ymd'. */
  function DateText(dt: UtcDateTime): string
  {
    Padded(dt.year, 4) + Padded(dt.month, 2) + Padded(dt.day, 2)
  }

  /** The PHP date format 'Ymd\THis\Z'. */
  function StampText(dt: UtcDateTime): string
  {
    DateText(dt) + "T" + Padded(dt.hour, 2) + Padded(dt.minute, 2) + Padded(dt.second, 2) + "Z"
  }

  /** `dateForProperty`: `P:YYYYMMDDTHHMMSSZ` with time, `P;VALUE=DATE:YYYYMMDD` without. */
  function DateForProperty(property: string, dt: UtcDateTime, includeTime: bool): string
  {
    if includeTime then property + ":" + StampText(dt)
    else property + ";VALUE=DATE:" + DateText(dt)
  }

  /** Reads an 8-digit DATE value back into year, month and day. */
  function ParseDate(t: string): Option<(nat, nat, nat)>
  {
    if |t| == 8 && AllDigits(t) then Some((Value(t[..4]), Value(t[4..6]), Value(t[6..])))
    else None
  }

  /** Reads a 6-digit time of day back into hour, minute and second. */
  function ParseTime(t: string): Option<(nat, nat, nat)>
  {
    if |t| == 6 && AllDigits(t) then Some((Value(t[..2]), Value(t[2..4]), Value(t[4..])))
    else None
  }

  /** Reads a 16-character UTC DATE-TIME value back into its components. */
  function ParseStamp(t: string): Option<UtcDateTime>
  {
    if |t| == 16 && t[8] == 'T' && t[15] == 'Z' then
      match (ParseDate(t[..8]), ParseTime(t[9..15]))
      case (Some((y, mo, d)), Some((h, mi, s))) => Some(UtcDateTime(y, mo, d, h, mi, s))
      case _ => None
    else None
  }

  lemma Field(n: nat, width: nat)
    requires 1 <= width && n < Pow10(width)
    ensures |Padded(n, width)| == width && AllDigits(Padded(n, width)) && Value(Padded(n, width)) == n
  {
    PaddedWidth(n, width);
    PaddedRoundTrip(n, width);
  }

  /** The date part has exactly eight digits and reads back as the date. */
  lemma DateTextRoundTrip(dt: UtcDateTime)
    requires dt.Valid()
    ensures |DateText(dt)| == 8 && AllDigits(DateText(dt))
    ensures ParseDate(DateText(dt)) == Some((dt.year, dt.month, dt.day))
  {
    assert Pow10(4) == 10000 && Pow10(2) == 100;
    Field(dt.year, 4);
    Field(dt.month, 2);
    Field(dt.day, 2);
    var t := DateText(dt);
    assert t[..4] == Padded(dt.year, 4);
    assert t[4..6] == Padded(dt.month, 2);
    assert t[6..] == Padded(dt.day, 2);
  }

  /** The stamp has the fixed 16-character shape and reads back as the same instant. */
  lemma StampTextRoundTrip(dt: UtcDateTime)
    requires dt.Valid()
    ensures |StampText(dt)| == 16
    ensures ParseStamp(StampText(dt)) == Some(dt)
  {
    assert Pow10(2) == 100;
    DateTextRoundTrip(dt);
    Field(dt.hour, 2);
    Field(dt.minute, 2);
    Field(dt.second, 2);
    var d := DateText(dt);
    var t := StampText(dt);
    assert t[..8] == d;
    var u := t[9..15];
    assert u == Padded(dt.hour, 2) + Padded(dt.minute, 2) + Padded(dt.second, 2);
    assert u[..2] == Padded(dt.hour, 2);
    assert u[2..4] == Padded(dt.minute, 2);
    assert u[4..] == Padded(dt.second, 2);
  }

  /**
   * With time the value follows `P:` and is a UTC DATE-TIME that reads back as
   * the instant; without time it follows `P;VALUE=DATE:` and reads back as the date.
   */
  lemma DateForPropertyForms(property: string, dt: UtcDateTime, includeTime: bool)
    requires dt.Valid()
    ensures var r := DateForProperty(property, dt, includeTime);
      includeTime ==>
        && |r| == |property| + 17
        && r[..|property| + 1] == property + ":"
        && ParseStamp(r[|property| + 1..]) == Some(dt)
    ensures var r := DateForProperty(property, dt, includeTime);
      !includeTime ==>
        && |r| == |property| + 20
        && r[..|property| + 12] == property + ";VALUE=DATE:"
        && ParseDate(r[|property| + 12..]) == Some((dt.year, dt.month, dt.day))
  {
    var r := DateForProperty(property, dt, includeTime);
    if includeTime {
      StampTextRoundTrip(dt);
      assert r[|property| + 1..] == StampText(dt);
    } else {
      DateTextRoundTrip(dt);
      assert r[|property| + 12..] == DateText(dt);
    }
  }

  lemma PaddedYears()
    ensures Padded(1996, 4) == "1996" && Padded(1998, 4) == "1998"
  {
    assert Padded(19, 2) == "19";
    assert Padded(199, 3) == "199";
  }

  lemma PaddedPairs()
    ensures Padded(0, 2) == "00" && Padded(1, 2) == "01" && Padded(4, 2) == "04" && Padded(7, 2) == "07"
    ensures Padded(23, 2) == "23" && Padded(59, 2) == "59"
  {
  }

  lemma ExampleDateText()
    ensures DateText(UtcDateTime(1996, 4, 1, 23, 59, 59)) == "19960401"
  {
    PaddedPairs();
    PaddedYears();
  }

  lemma ExampleStampText()
    ensures StampText(UtcDateTime(1996, 4, 1, 23, 59, 59)) == "19960401T235959Z"
  {
    ExampleDateText();
    PaddedPairs();
    assert "19960401" + "T" + "23" + "59" + "59" + "Z" == "19960401T235959Z";
  }

  /** The example value given for `dateForProperty` with time. */
  lemma DateTimeExample()
    ensures DateForProperty("DTEND", UtcDateTime(1996, 4, 1, 23, 59, 59), true) == "DTEND:19960401T235959Z"
  {
    ExampleStampText();
    assert "DTEND" + ":" + "19960401T235959Z" == "DTEND:19960401T235959Z";
  }

  /** The example value given for `dateForProperty` without time. */
  lemma DateOnlyExample()
    ensures DateForProperty("DTEND", UtcDateTime(1998, 7, 4, 0, 0, 0), false) == "DTEND;VALUE=DATE:19980704"
  {
    PaddedYears();
    PaddedPairs();
    var d := "1998" + "07" + "04";
    assert d == "19980704";
  }
}
