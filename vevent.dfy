/**
 * One calendar event (VEVENT): a record whose setters overwrite one field
 * each, and the text it serialises to, one optional line per property in a
 * fixed order between BEGIN:VEVENT and END:VEVENT.
 */
module VEvents {
  import opened Wrappers
  import opened Text
  import opened Decimal
  import opened IcsFormatter

  // Status values of section 4.8.1.11 of RFC 2445.
  const STATUS_TENTATIVE: string := "TENTATIVE"
  const STATUS_CONFIRMED: string := "CONFIRMED"
  const STATUS_CANCELLED: string := "CANCELLED"

  /** PHP `empty()` on a string: the empty string and "0". */
  predicate EmptyString(s: string)
  {
    s == "" || s == "0"
  }

  /** The field values of an event at the moment it is serialised. */
  datatype Event = Event(
    uid: string,
    sequence: int,
    summary: string,
    description: string,
    lastModified: UtcDateTime,
    dtStamp: UtcDateTime,
    dtStart: UtcDateTime,
    dtEnd: UtcDateTime,
    allDay: bool,
    location: string,
    url: string,
    status: string)

  /** The properties an event can emit, in the order `toIcs` emits them. */
  datatype Prop = Summary | Description | Uid | Status | DtStart | DtEnd | DtStamp
                | Sequence | LastModified | Url | Location

  const LineOrder: seq<Prop> :=
    [Summary, Description, Uid, Status, DtStart, DtEnd, DtStamp, Sequence, LastModified, Url, Location]

  /** Position of a property in `LineOrder`. */
  function Rank(p: Prop): nat
  {
    match p
    case Summary => 0 case Description => 1 case Uid => 2 case Status => 3
    case DtStart => 4 case DtEnd => 5 case DtStamp => 6 case Sequence => 7
    case LastModified => 8 case Url => 9 case Location => 10
  }

  /** The property name that starts the line. */
  function Name(p: Prop): string
  {
    match p
    case Summary => "SUMMARY" case Description => "DESCRIPTION" case Uid => "UID"
    case Status => "STATUS" case DtStart => "DTSTART" case DtEnd => "DTEND"
    case DtStamp => "DTSTAMP" case Sequence => "SEQUENCE" case LastModified => "LAST-MODIFIED"
    case Url => "URL" case Location => "LOCATION"
  }

  /** A line is emitted unless PHP `empty()` holds for its field; timestamps are objects and never empty. */
  predicate Present(e: Event, p: Prop)
  {
    match p
    case Summary => !EmptyString(e.summary)
    case Description => !EmptyString(e.description)
    case Uid => !EmptyString(e.uid)
    case Status => !EmptyString(e.status)
    case Sequence => e.sequence != 0
    case Url => !EmptyString(e.url)
    case Location => !EmptyString(e.location)
    case DtStart => true
    case DtEnd => true
    case DtStamp => true
    case LastModified => true
  }

  /** The text of a property's line, without its terminator. */
  function Content(e: Event, p: Prop): string
  {
    match p
    case Summary => "SUMMARY:" + Escape(e.summary)
    case Description => "DESCRIPTION:" + Escape(e.description)
    case Uid => "UID:" + e.uid
    case Status => "STATUS:" + e.status
    case DtStart => DateForProperty("DTSTART", e.dtStart, !e.allDay)
    case DtEnd => DateForProperty("DTEND", e.dtEnd, !e.allDay)
    case DtStamp => "DTSTAMP:" + StampText(e.dtStamp)
    case Sequence => "SEQUENCE:" + IntText(e.sequence)
    case LastModified => DateForProperty("LAST-MODIFIED", e.lastModified, true)
    case Url => "URL:" + Escape(e.url)
    case Location => "LOCATION:" + Escape(e.location)
  }

  /** The per-property renderers (`summary()`, `uid()`, ...): the line and EOL, or nothing. */
  function Render(e: Event, p: Prop): string
  {
    if Present(e, p) then Content(e, p) + EOL else ""
  }

  /** `title()` is `summary()`. */
  function Title(e: Event): string
  {
    Render(e, Summary)
  }

  const BEGIN_VEVENT: string := "BEGIN:VEVENT"
  const END_VEVENT: string := "END:VEVENT"

  /** Concatenation of the renderers of `ps`, in the order of `ps`. */
  function RenderAll(e: Event, ps: seq<Prop>): string
  {
    if ps == [] then "" else Render(e, ps[0]) + RenderAll(e, ps[1..])
  }

  /** `toIcs`: the begin line, every renderer in `LineOrder`, then the end line with no EOL. */
  function EventIcs(e: Event): (r: string)
    ensures |r| >= 23
    ensures r[..13] == BEGIN_VEVENT + EOL
    ensures r[|r| - 10..] == END_VEVENT
  {
    var body := RenderAll(e, LineOrder);
    var r := BEGIN_VEVENT + EOL + body + END_VEVENT;
    assert r[..13] == BEGIN_VEVENT + EOL;
    assert r[|r| - 10..] == END_VEVENT;
    r
  }

  // A second, line-by-line reading of the event text.

  /** The properties among `ps` whose line is emitted, in the order of `ps`. */
  function PresentAmong(e: Event, ps: seq<Prop>): (r: seq<Prop>)
    ensures forall p :: p in r <==> p in ps && Present(e, p)
  {
    if ps == [] then []
    else (if Present(e, ps[0]) then [ps[0]] else []) + PresentAmong(e, ps[1..])
  }

  /** The emitted properties of an event. */
  function EmittedProps(e: Event): seq<Prop>
  {
    PresentAmong(e, LineOrder)
  }

  /** The content lines of the properties `ps`, in order. */
  function ContentLines(e: Event, ps: seq<Prop>): (ls: seq<string>)
    ensures |ls| == |ps|
    ensures forall i :: 0 <= i < |ps| ==> ls[i] == Content(e, ps[i])
  {
    if ps == [] then [] else [Content(e, ps[0])] + ContentLines(e, ps[1..])
  }

  /** The emitted lines of an event body, without terminators. */
  function Lines(e: Event): (ls: seq<string>)
    ensures |ls| == |EmittedProps(e)|
  {
    ContentLines(e, EmittedProps(e))
  }

  lemma {:induction false} RenderAllIsTerminatedLines(e: Event, ps: seq<Prop>)
    ensures RenderAll(e, ps) == Terminated(ContentLines(e, PresentAmong(e, ps)), EOL)
  {
    if ps != [] {
      RenderAllIsTerminatedLines(e, ps[1..]);
      var rest := PresentAmong(e, ps[1..]);
      if Present(e, ps[0]) {
        assert PresentAmong(e, ps) == [ps[0]] + rest;
        assert ([ps[0]] + rest)[1..] == rest;
      } else {
        assert PresentAmong(e, ps) == rest;
      }
    }
  }

  /**
   * The event text is BEGIN:VEVENT, then one line per emitted property, each
   * followed by exactly one EOL, then END:VEVENT with no EOL after it.
   */
  lemma EventIcsIsFramedLines(e: Event)
    ensures EventIcs(e) == BEGIN_VEVENT + EOL + Terminated(Lines(e), EOL) + END_VEVENT
  {
    RenderAllIsTerminatedLines(e, LineOrder);
  }

  /** The text up to the first ':' or ';' of a line: its property name. */
  function NameOf(line: string): string
  {
    if line == [] || line[0] == ':' || line[0] == ';' then "" else [line[0]] + NameOf(line[1..])
  }

  lemma {:induction false} NameOfPrefix(name: string, rest: string)
    requires ':' !in name && ';' !in name
    requires rest != [] && (rest[0] == ':' || rest[0] == ';')
    ensures NameOf(name + rest) == name
  {
    if name != [] {
      assert (name + rest)[1..] == name[1..] + rest;
      NameOfPrefix(name[1..], rest);
    }
  }

  /** No property name contains ':' or ';', so the first of them in a line ends its name. */
  lemma NameHasNoSeparator(p: Prop)
    ensures ':' !in Name(p) && ';' !in Name(p)
  {
  }

  /** Every line starts with its property name, followed by ':' or ';'. */
  lemma ContentStartsWithName(e: Event, p: Prop)
    ensures ':' !in Name(p) && ';' !in Name(p)
    ensures |Name(p)| < |Content(e, p)| && Content(e, p)[..|Name(p)|] == Name(p)
    ensures Content(e, p)[|Name(p)|] == ':' || Content(e, p)[|Name(p)|] == ';'
  {
    NameHasNoSeparator(p);
  }

  lemma ContentName(e: Event, p: Prop)
    ensures NameOf(Content(e, p)) == Name(p)
  {
    var c := Content(e, p);
    var n := Name(p);
    ContentStartsWithName(e, p);
    assert c == n + c[|n|..];
    NameOfPrefix(n, c[|n|..]);
  }

  /** Ranks strictly increase along `ps`: each property at most once, in `LineOrder` order. */
  predicate RankIncreasing(ps: seq<Prop>)
  {
    forall i, j :: 0 <= i < j < |ps| ==> Rank(ps[i]) < Rank(ps[j])
  }

  lemma ConsRankIncreasing(x: Prop, r: seq<Prop>)
    requires RankIncreasing(r)
    requires forall q :: q in r ==> Rank(x) < Rank(q)
    ensures RankIncreasing([x] + r)
  {
    var xr := [x] + r;
    forall i, j | 0 <= i < j < |xr| ensures Rank(xr[i]) < Rank(xr[j]) {
      assert xr[j] == r[j - 1];
      if i > 0 {
        assert xr[i] == r[i - 1];
      }
    }
  }

  lemma {:induction false} PresentAmongKeepsRankOrder(e: Event, ps: seq<Prop>)
    requires RankIncreasing(ps)
    ensures RankIncreasing(PresentAmong(e, ps))
  {
    if ps != [] {
      var tail := ps[1..];
      assert RankIncreasing(tail) by {
        forall i, j | 0 <= i < j < |tail| ensures Rank(tail[i]) < Rank(tail[j]) {
          assert tail[i] == ps[i + 1] && tail[j] == ps[j + 1];
        }
      }
      PresentAmongKeepsRankOrder(e, tail);
      var rest := PresentAmong(e, tail);
      if Present(e, ps[0]) {
        forall q | q in rest ensures Rank(ps[0]) < Rank(q) {
          var k :| 0 <= k < |tail| && tail[k] == q;
          assert ps[k + 1] == q;
        }
        ConsRankIncreasing(ps[0], rest);
      } else {
        assert PresentAmong(e, ps) == rest;
      }
    }
  }

  /**
   * The emitted lines name their properties in the order SUMMARY, DESCRIPTION,
   * UID, STATUS, DTSTART, DTEND, DTSTAMP, SEQUENCE, LAST-MODIFIED, URL,
   * LOCATION, and no property appears twice.
   */
  lemma LinesFollowLineOrder(e: Event)
    ensures forall i :: 0 <= i < |Lines(e)| ==> NameOf(Lines(e)[i]) == Name(EmittedProps(e)[i])
    ensures RankIncreasing(EmittedProps(e))
  {
    forall i | 0 <= i < |Lines(e)| ensures NameOf(Lines(e)[i]) == Name(EmittedProps(e)[i]) {
      ContentName(e, EmittedProps(e)[i]);
    }
    assert forall i :: 0 <= i < |LineOrder| ==> Rank(LineOrder[i]) == i;
    PresentAmongKeepsRankOrder(e, LineOrder);
  }

  lemma NameInjective(p: Prop, q: Prop)
    requires Name(p) == Name(q)
    ensures p == q
  {
  }

  /** A property has a line in the event text exactly when its field is not PHP-empty. */
  lemma OmittedExactlyWhenEmpty(e: Event, p: Prop)
    ensures HasLine(e, p) <==> Present(e, p)
  {
    LinesFollowLineOrder(e);
    var ps := EmittedProps(e);
    if Present(e, p) {
      assert p in ps;
      var i :| 0 <= i < |ps| && ps[i] == p;
      assert NameOf(Lines(e)[i]) == Name(p);
    } else {
      forall i | 0 <= i < |Lines(e)| ensures NameOf(Lines(e)[i]) != Name(p) {
        if NameOf(Lines(e)[i]) == Name(p) {
          NameInjective(ps[i], p);
        }
      }
    }
  }

  /**
   * SUMMARY, DESCRIPTION, URL and LOCATION carry their escaped value: the
   * line holds no line feed and, for values without CR, decoding the part
   * after the colon gives the field back. UID and STATUS carry theirs verbatim.
   */
  lemma TextLines(e: Event)
    ensures forall p :: p in {Summary, Description, Url, Location} ==> '\n' !in Content(e, p)
    ensures '\r' !in e.summary ==> Unescape(Content(e, Summary)[8..]) == e.summary
    ensures '\r' !in e.description ==> Unescape(Content(e, Description)[12..]) == e.description
    ensures '\r' !in e.url ==> Unescape(Content(e, Url)[4..]) == e.url
    ensures '\r' !in e.location ==> Unescape(Content(e, Location)[9..]) == e.location
    ensures Content(e, Uid)[4..] == e.uid && Content(e, Status)[7..] == e.status
  {
    EscapedLine("SUMMARY:", e.summary);
    EscapedLine("DESCRIPTION:", e.description);
    EscapedLine("URL:", e.url);
    EscapedLine("LOCATION:", e.location);
  }

  /** A text line: a prefix without LF, then the escaped value. */
  lemma EscapedLine(prefix: string, v: string)
    requires '\n' !in prefix
    ensures '\n' !in prefix + Escape(v)
    ensures '\r' !in v ==> Unescape((prefix + Escape(v))[|prefix|..]) == v
  {
    EscapeHasNoLineFeed(v);
    assert (prefix + Escape(v))[|prefix|..] == Escape(v);
    if '\r' !in v {
      EscapeRoundTrip(v);
    }
  }

  /** The timestamp a date-valued property shows. */
  function Instant(e: Event, p: Prop): UtcDateTime
    requires p in {DtStart, DtEnd, DtStamp, LastModified}
  {
    match p
    case DtStart => e.dtStart
    case DtEnd => e.dtEnd
    case DtStamp => e.dtStamp
    case LastModified => e.lastModified
  }

  /** DTSTART and DTEND show the time unless the event is all-day; DTSTAMP and LAST-MODIFIED always do. */
  predicate IncludesTime(e: Event, p: Prop)
  {
    (p == DtStart || p == DtEnd) ==> !e.allDay
  }

  /**
   * A date-valued line is `NAME:` and a UTC DATE-TIME when it includes the
   * time, and `NAME;VALUE=DATE:` and a DATE otherwise; either value reads back
   * as the timestamp (or its date) it was made from.
   */
  lemma DateLine(e: Event, p: Prop)
    requires p in {DtStart, DtEnd, DtStamp, LastModified}
    requires Instant(e, p).Valid()
    ensures var c, n, dt := Content(e, p), Name(p), Instant(e, p);
      IncludesTime(e, p) ==>
        && |c| == |n| + 17
        && c[..|n| + 1] == n + ":"
        && ParseStamp(c[|n| + 1..]) == Some(dt)
    ensures var c, n, dt := Content(e, p), Name(p), Instant(e, p);
      !IncludesTime(e, p) ==>
        && |c| == |n| + 20
        && c[..|n| + 12] == n + ";VALUE=DATE:"
        && ParseDate(c[|n| + 12..]) == Some((dt.year, dt.month, dt.day))
  {
    assert Content(e, p) == DateForProperty(Name(p), Instant(e, p), IncludesTime(e, p));
    DateForPropertyForms(Name(p), Instant(e, p), IncludesTime(e, p));
  }

  /** The SEQUENCE value is the integer's decimal text. */
  lemma SequenceLine(e: Event)
    requires Present(e, Sequence)
    ensures var v := Content(e, Sequence)[9..];
      && v != []
      && (v[0] == '-' ==> AllDigits(v[1..])) && (v[0] != '-' ==> AllDigits(v))
      && ParseInt(v) == e.sequence
  {
    IntTextRoundTrip(e.sequence);
    assert Content(e, Sequence)[9..] == IntText(e.sequence);
  }

  /** The fields of a new event: `uniqid()`, `time()` and `Carbon::now()` are the parameters. */
  function Defaults(uid: string, sequence: int, now: UtcDateTime): Event
  {
    Event(uid, sequence, "", "", now, now, now, now, true, "", "", STATUS_CONFIRMED)
  }

  /** Some emitted line is the line of property `p`. */
  predicate HasLine(e: Event, p: Prop)
  {
    var ls := Lines(e);
    exists i :: 0 <= i < |ls| && NameOf(ls[i]) == Name(p)
  }

  /**
   * A new event has no SUMMARY, DESCRIPTION, URL or LOCATION line, has a
   * STATUS line and the four date lines, and has UID and SEQUENCE lines
   * unless the generated values are empty.
   */
  lemma DefaultEventLines(uid: string, sequence: int, now: UtcDateTime, p: Prop)
    ensures HasLine(Defaults(uid, sequence, now), p) <==>
      && p !in {Summary, Description, Url, Location}
      && (p == Uid ==> !EmptyString(uid))
      && (p == Sequence ==> sequence != 0)
  {
    OmittedExactlyWhenEmpty(Defaults(uid, sequence, now), p);
  }

  /** An event whose setters overwrite one field each. */
  class VEvent {
    var uid: string
    var sequence: int
    var summary: string
    var description: string
    var lastModified: UtcDateTime
    var dtStamp: UtcDateTime
    var dtStart: UtcDateTime
    var dtEnd: UtcDateTime
    var allDay: bool
    var location: string
    var url: string
    var status: string

    /** The current field values. */
    function Fields(): Event
      reads this
    {
      Event(uid, sequence, summary, description, lastModified, dtStamp, dtStart, dtEnd,
            allDay, location, url, status)
    }

    /** `__toString` / `toIcs`. */
    function ToIcs(): string
      reads this
    {
      EventIcs(Fields())
    }

    /** `new VEvent()`: the field defaults, then `init()`. */
    constructor (uid: string, sequence: int, now: UtcDateTime)
      ensures Fields() == Defaults(uid, sequence, now)
    {
      summary := "";
      description := "";
      allDay := true;
      location := "";
      url := "";
      status := STATUS_CONFIRMED;
      new;
      Init(uid, sequence, now);
    }

    /** `init()`: a fresh uid and sequence, and every timestamp set to now. */
    method Init(uid: string, sequence: int, now: UtcDateTime)
      modifies this`uid, this`sequence, this`dtStart, this`dtEnd, this`lastModified, this`dtStamp
      ensures Fields() == old(Fields()).(uid := uid, sequence := sequence,
        dtStart := now, dtEnd := now, lastModified := now, dtStamp := now)
    {
      this.uid := uid;
      this.sequence := sequence;
      dtStart := now;
      dtEnd := now;
      lastModified := now;
      dtStamp := now;
    }

    method SetTitle(title: string)
      modifies this`summary
      ensures Fields() == old(Fields()).(summary := title)
    {
      SetSummary(title);
    }

    method SetSummary(summary: string)
      modifies this`summary
      ensures Fields() == old(Fields()).(summary := summary)
    {
      this.summary := summary;
    }

    method SetDescription(description: string)
      modifies this`description
      ensures Fields() == old(Fields()).(description := description)
    {
      this.description := description;
    }

    method SetUid(uid: string)
      modifies this`uid
      ensures Fields() == old(Fields()).(uid := uid)
    {
      this.uid := uid;
    }

    method SetDtStart(dtStart: UtcDateTime)
      modifies this`dtStart
      ensures Fields() == old(Fields()).(dtStart := dtStart)
    {
      this.dtStart := dtStart;
    }

    method SetDtEnd(dtEnd: UtcDateTime)
      modifies this`dtEnd
      ensures Fields() == old(Fields()).(dtEnd := dtEnd)
    {
      this.dtEnd := dtEnd;
    }

    /** `allDayEvent`. */
    method AllDayEvent(allDay: bool)
      modifies this`allDay
      ensures Fields() == old(Fields()).(allDay := allDay)
    {
      this.allDay := allDay;
    }

    method SetSequence(sequence: int)
      modifies this`sequence
      ensures Fields() == old(Fields()).(sequence := sequence)
    {
      this.sequence := sequence;
    }

    method SetLastModified(lastModified: UtcDateTime)
      modifies this`lastModified
      ensures Fields() == old(Fields()).(lastModified := lastModified)
    {
      this.lastModified := lastModified;
    }

    method SetDtStamp(dtStamp: UtcDateTime)
      modifies this`dtStamp
      ensures Fields() == old(Fields()).(dtStamp := dtStamp)
    {
      this.dtStamp := dtStamp;
    }

    method SetLocation(location: string)
      modifies this`location
      ensures Fields() == old(Fields()).(location := location)
    {
      this.location := location;
    }

    method SetUrl(url: string)
      modifies this`url
      ensures Fields() == old(Fields()).(url := url)
    {
      this.url := url;
    }

    /** Any string is accepted; the STATUS_ constants are the intended values. */
    method SetStatus(status: string)
      modifies this`status
      ensures Fields() == old(Fields()).(status := status)
    {
      this.status := status;
    }
  }
}
