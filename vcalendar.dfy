/**
 * The iCalendar container: a VCALENDAR object holding a list of VEVENT
 * objects, a METHOD and a PRODID that falls back to the configured default.
 */
module VCalendars {
  import opened Wrappers
  import opened Text
  import opened IcsFormatter
  import opened VEvents

  /** The scheduling methods the calendar names (section 3.2 of RFC 2446). */
  const METHOD_PUBLISH: string := "PUBLISH"
  const METHOD_REQUEST: string := "REQUEST"
  const METHOD_REPLY: string := "REPLY"
  const METHOD_ADD: string := "ADD"
  const METHOD_CANCEL: string := "CANCEL"
  const METHOD_DECLINECOUNTER: string := "DECLINECOUNTER"

  /** The iCalendar version every calendar declares. */
  const VERSION: string := "2.0"

  /** `calendar.product_id` as shipped in the package's configuration file. */
  const DEFAULT_PRODUCT_ID: string := "-//timmcleod//calendar v1.0//EN"

  const BEGIN_VCALENDAR: string := "BEGIN:VCALENDAR"
  const END_VCALENDAR: string := "END:VCALENDAR"

  /**
   * `config('calendar.product_id', default)`: the configured value when the
   * key is set (`Some`), the built-in default when it is not (`None`).
   */
  function ConfiguredProdId(config: Option<string>): string
  {
    config.GetOr(DEFAULT_PRODUCT_ID)
  }

  /** The PRODID value: the calendar's own unless PHP's `empty()` holds for it. */
  function ResolvedProdId(prodId: string, config: Option<string>): string
  {
    if EmptyString(prodId) then ConfiguredProdId(config) else prodId
  }

  /** The four header lines, without their terminators. */
  function Header(method_: string, prodId: string, config: Option<string>): seq<string>
  {
    [BEGIN_VCALENDAR, "VERSION:" + VERSION, "METHOD:" + method_, "PRODID:" + ResolvedProdId(prodId, config)]
  }

  /** `vEventsToString`: the event texts joined by EOL, then one more EOL. */
  function EventsSection(texts: seq<string>): string
  {
    Join(texts, EOL) + EOL
  }

  /** `toIcs`: begin, version, method and product id lines, the events, then the end line with no EOL. */
  function CalendarIcs(method_: string, prodId: string, config: Option<string>, texts: seq<string>): (r: string)
    ensures |r| >= 16 + 12 + 8 + 8 + 1 + 13
    ensures r[..16] == BEGIN_VCALENDAR + EOL
    ensures r[|r| - 13..] == END_VCALENDAR
  {
    var r := BEGIN_VCALENDAR + EOL
      + "VERSION:" + VERSION + EOL
      + "METHOD:" + method_ + EOL
      + "PRODID:" + ResolvedProdId(prodId, config) + EOL
      + EventsSection(texts)
      + END_VCALENDAR;
    assert r[..16] == BEGIN_VCALENDAR + EOL;
    r
  }

  /**
   * An explicit product id wins over any configuration; an empty one (or
   * `"0"`, which PHP also treats as empty) falls back to the configuration,
   * and without a configured value the PRODID is never empty.
   */
  lemma ProdIdResolution(prodId: string, config: Option<string>)
    ensures !EmptyString(prodId) ==> ResolvedProdId(prodId, config) == prodId
    ensures EmptyString(prodId) ==> ResolvedProdId(prodId, config) == ConfiguredProdId(config)
    ensures config == None ==> !EmptyString(ResolvedProdId(prodId, config))
    ensures config == None && EmptyString(prodId) ==> ResolvedProdId(prodId, config) == DEFAULT_PRODUCT_ID
    ensures forall v :: config == Some(v) && EmptyString(prodId) ==> ResolvedProdId(prodId, config) == v
  {
    assert DEFAULT_PRODUCT_ID[0] == '-';
  }

  /**
   * Each event's text is followed by exactly one EOL; with no events the
   * section is a single EOL, i.e. an empty line before END:VCALENDAR.
   */
  lemma EventsSectionFraming(texts: seq<string>)
    ensures texts != [] ==> EventsSection(texts) == Terminated(texts, EOL)
    ensures texts == [] ==> EventsSection(texts) == EOL
  {
    if texts != [] {
      JoinThenSeparator(texts, EOL);
    }
  }

  /** Adding an event to a non-empty calendar appends its text and one EOL to the section. */
  lemma EventsSectionAppend(texts: seq<string>, t: string)
    requires texts != []
    ensures EventsSection(texts + [t]) == EventsSection(texts) + t + EOL
  {
    JoinAppend(texts, t, EOL);
  }

  /**
   * The whole calendar is the header lines and the event texts, each
   * followed by EOL, then END:VCALENDAR; an empty calendar has one empty
   * line in place of the events.
   */
  lemma CalendarLayout(method_: string, prodId: string, config: Option<string>, texts: seq<string>)
    ensures var r := CalendarIcs(method_, prodId, config, texts);
      texts != [] ==> r == Terminated(Header(method_, prodId, config) + texts, EOL) + END_VCALENDAR
    ensures var r := CalendarIcs(method_, prodId, config, texts);
      texts == [] ==> r == Terminated(Header(method_, prodId, config) + [""], EOL) + END_VCALENDAR
  {
    var h := Header(method_, prodId, config);
    var head := BEGIN_VCALENDAR + EOL
      + "VERSION:" + VERSION + EOL
      + "METHOD:" + method_ + EOL
      + "PRODID:" + ResolvedProdId(prodId, config) + EOL;
    assert Terminated(h, EOL) == head by {
      var p := "PRODID:" + ResolvedProdId(prodId, config);
      assert Terminated([p], EOL) == p + EOL by { assert [p][1..] == []; }
      var m := "METHOD:" + method_;
      var v := "VERSION:" + VERSION;
      assert h[1..][1..][1..] == [p];
      assert Terminated([m, p], EOL) == m + EOL + (p + EOL) by { assert [m, p][1..] == [p]; }
      assert h[1..][1..] == [m, p];
      assert Terminated([v, m, p], EOL) == v + EOL + (m + EOL + (p + EOL)) by { assert [v, m, p][1..] == [m, p]; }
      assert h[1..] == [v, m, p];
    }
    EventsSectionFraming(texts);
    if texts != [] {
      TerminatedConcat(h, texts, EOL);
    } else {
      TerminatedConcat(h, [""], EOL);
      assert Terminated([""], EOL) == EOL by {
        assert [""][1..] == [];
      }
    }
  }

  /** The events in a calendar, in the order they were added, by their texts. */
  function EventTexts(es: seq<VEvent>): (r: seq<string>)
    reads set e | e in es
    ensures |r| == |es|
    ensures forall i :: 0 <= i < |es| ==> r[i] == es[i].ToIcs()
  {
    seq(|es|, i reads set e | e in es requires 0 <= i < |es| => es[i].ToIcs())
  }

  /** Adding an event appends its text after the texts of the events already held. */
  lemma EventTextsAppend(es: seq<VEvent>, e: VEvent)
    ensures EventTexts(es + [e]) == EventTexts(es) + [e.ToIcs()]
  {
  }

  /**
   * After `addVEvent(e)` the calendar reads: the header lines, the texts of
   * the events held before, in the order they were added, then the text of
   * `e`, each followed by EOL, then END:VCALENDAR.
   */
  lemma CalendarAfterAdd(method_: string, prodId: string, config: Option<string>, es: seq<VEvent>, e: VEvent)
    ensures CalendarIcs(method_, prodId, config, EventTexts(es + [e]))
      == Terminated(Header(method_, prodId, config) + EventTexts(es) + [e.ToIcs()], EOL) + END_VCALENDAR
  {
    CalendarLayout(method_, prodId, config, EventTexts(es + [e]));
    assert Header(method_, prodId, config) + EventTexts(es + [e])
      == Header(method_, prodId, config) + EventTexts(es) + [e.ToIcs()];
  }

  /**
   * A calendar. It holds references to its events, so an event changed after
   * it was added shows its new fields in the calendar's output.
   */
  class VCalendar {
    var vEvents: seq<VEvent>
    var method_: string
    var prodId: string

    /** `new VCalendar()`: no events, METHOD:PUBLISH and no product id of its own. */
    constructor ()
      ensures vEvents == [] && method_ == METHOD_PUBLISH && prodId == ""
    {
      method_ := METHOD_PUBLISH;
      prodId := "";
      new;
      Init();
    }

    /** `init()`: a fresh, empty event list. */
    method Init()
      modifies this`vEvents
      ensures vEvents == []
    {
      vEvents := [];
    }

    /** `addVEvent`: the event goes to the end of the list. */
    method AddVEvent(e: VEvent)
      modifies this`vEvents
      ensures vEvents == old(vEvents) + [e]
    {
      vEvents := vEvents + [e];
    }

    /** `setMethod`: any string is stored; the METHOD_ constants are the intended values. */
    method SetMethod(m: string)
      modifies this`method_
      ensures method_ == m
    {
      method_ := m;
    }

    /** `setProdId`. */
    method SetProdId(p: string)
      modifies this`prodId
      ensures prodId == p
    {
      prodId := p;
    }

    /** `__toString` / `toIcs`, with the configuration value as a parameter. */
    function ToIcs(config: Option<string>): string
      reads this, set e | e in vEvents
    {
      CalendarIcs(method_, prodId, config, EventTexts(vEvents))
    }
  }
}
