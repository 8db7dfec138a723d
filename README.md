# laravel-core-lib core, modelled in Dafny

This project models four pieces of the library:

- **iCalendar output.** This covers `IcsFormatter`, `VEvent` and `VCalendar`.
  - A `VEvent` is a class whose setters overwrite one field each.
  - Its `toIcs` emits `BEGIN:VEVENT`, then one line per property, then `END:VEVENT`.
    - The properties come in a fixed order.
    - A property is omitted when PHP's `empty()` holds for its field.
    - Text values are escaped.
    - Dates are written as UTC `DATE-TIME` values, or as `VALUE=DATE` values for all-day events.
  - A `VCalendar` holds a list of event references, a METHOD and a PRODID. The PRODID falls back to the configured `calendar.product_id`.
- **The `ChangeTrackable` trait.** On every save it records, per attribute, the first old value and the latest new value. The ledger is kept ordered by key, as `ksort` orders it. The trait also filters the ledger by attribute lists and renders it as a string through a `{attribute}`/`{label}`/`{old}`/`{new}` template.
- **`NameCase::format`.** It lower-cases a name. Then, for each delimiter in turn, it splits the name, re-cases every word and joins the words again with the lower-cased delimiter. Re-casing applies the force-lowercase list, the force-uppercase list or `ucfirst`.

Files:

- `wrappers.dfy`: `Option`.
- `text.dfy`: the PHP string builtins the code relies on, as functions with their laws.
  - `implode`, `explode`, `str_replace`.
  - `strtolower`, `strtoupper`, `ucfirst`.
- `decimal.dfy`: zero-padded and signed decimal text, with parsers for round trips.
- `ics_formatter.dfy`, `vevent.dfy`, `vcalendar.dfy`: the iCalendar classes.
- `change_trackable.dfy`: the trait.
- `name_case.dfy`: the formatter.
- `name_case_examples.dfy`: the formatter's published examples, proved on the model.

Where state changes in place (the two calendar classes and the ledger), the model is a Dafny `class`. Its methods are specified by pure functions of the fields, and the properties are proved about those functions. The loops of `getChangesString`, `trackChanges` and the delimiter loop of `format` are `while` loops with invariants.

## Model

| member | source | states |
|---|---|---|
| IcsFormatter.EscapeIsCharwise | src/Calendar/IcsFormatter.php:11-21 | For text without CR, the chained `str_replace` escapes each character on its own: a backslash is doubled and LF becomes `\n`; nothing is escaped twice. |
| IcsFormatter.EscapeIdentity | src/Calendar/IcsFormatter.php:11-21 | Text with no backslash, CR or LF is left unchanged by escaping. |
| IcsFormatter.EscapeHasNoLineFeed | src/Calendar/IcsFormatter.php:11-21 | Escaped text never contains a line feed, so an escaped value cannot break its content line. |
| IcsFormatter.EscapeRoundTrip | src/Calendar/IcsFormatter.php:11-21 | For text without CR, unescaping the escaped text gives back the original: escaping is injective. |
| IcsFormatter.EscapeLength | src/Calendar/IcsFormatter.php:11-21 | Without CR or LF, escaping adds exactly one character per backslash. |
| IcsFormatter.DateTextRoundTrip | src/Calendar/IcsFormatter.php:37-49 | The `Ymd` text of a valid date has 8 digits and parses back to its year, month and day. |
| IcsFormatter.StampTextRoundTrip | src/Calendar/IcsFormatter.php:37-49 | The `Ymd\THis\Z` text of a valid instant has 16 characters and parses back to the same instant. |
| IcsFormatter.DateForPropertyForms | src/Calendar/IcsFormatter.php:37-49 | With time, the line is `P:` followed by a UTC DATE-TIME that reads back as the instant. Without time, it is `P;VALUE=DATE:` followed by a DATE that reads back as the day. The lengths are exact. |
| IcsFormatter.DateTimeExample | src/Calendar/IcsFormatter.php:26-30 | The documented example: DTEND for 1996-04-01 23:59:59 with time is `DTEND:19960401T235959Z`. |
| IcsFormatter.DateOnlyExample | src/Calendar/IcsFormatter.php:26-30 | The documented example: DTEND for 1998-07-04 without time is `DTEND;VALUE=DATE:19980704`. |
| Decimal.PaddedRoundTrip | src/Calendar/IcsFormatter.php:37-49 | A zero-padded date field is all digits and reads back as its number. |
| Decimal.PaddedWidth | src/Calendar/IcsFormatter.php:37-49 | A number below 10^w padded to width w has exactly w characters. |
| Decimal.IntTextRoundTrip | src/Calendar/VEvent.php:314-319 | The decimal text of an integer, as PHP concatenation prints it, is non-empty, is an optional sign followed by digits, and parses back to the integer. |
| VEvents.EventIcs | src/Calendar/VEvent.php:217-233 | An event's text starts with `BEGIN:VEVENT` and EOL and ends with `END:VEVENT`, with no trailing EOL. |
| VEvents.RenderAllIsTerminatedLines | src/Calendar/VEvent.php:217-233 | Concatenating the renderers gives the present properties' lines, in the given order, each followed by EOL. |
| VEvents.EventIcsIsFramedLines | src/Calendar/VEvent.php:217-233 | The event text is the BEGIN line, every emitted property line followed by EOL, then END:VEVENT. |
| VEvents.PresentAmongKeepsRankOrder | src/Calendar/VEvent.php:217-233 | Omitting absent properties keeps the rest in their fixed order. |
| VEvents.LinesFollowLineOrder | src/Calendar/VEvent.php:217-233 | The i-th emitted line names the i-th emitted property. The emitted properties are strictly increasing in the order SUMMARY, DESCRIPTION, UID, STATUS, DTSTART, DTEND, DTSTAMP, SEQUENCE, LAST-MODIFIED, URL, LOCATION. |
| VEvents.ContentName | src/Calendar/VEvent.php:91-96 | Every property line starts with its property name, followed by `:` or `;`. |
| VEvents.NameInjective | src/Calendar/VEvent.php:217-233 | No two properties share a name, so a line identifies its property. |
| VEvents.OmittedExactlyWhenEmpty | src/Calendar/VEvent.php:246-271 | The event has a line for a property exactly when its field is not PHP-`empty()`. For SEQUENCE that means non-zero. The date properties always have a line. |
| VEvents.TextLines | src/Calendar/VEvent.php:91-96 | SUMMARY, DESCRIPTION, URL and LOCATION lines contain no LF. For values without CR, they unescape back to the field. UID and STATUS carry their field verbatim. |
| VEvents.DateLine | src/Calendar/VEvent.php:276-309 | Each date line reads back as its field's instant. DTSTART and DTEND use the DATE form exactly when the event is all-day. LAST-MODIFIED always includes the time. |
| VEvents.SequenceLine | src/Calendar/VEvent.php:314-319 | The SEQUENCE value is the sequence number's signed decimal text and parses back to it. |
| VEvents.DefaultEventLines | src/Calendar/VEvent.php:23-57 | A new event has the STATUS line and the four date lines. It has no SUMMARY, DESCRIPTION, URL or LOCATION line. It has UID and SEQUENCE lines unless the generated values are empty. |
| VEvents.VEvent.constructor | src/Calendar/VEvent.php:62-78 | A new event's fields are the defaults: generated uid and sequence, all four dates "now", all-day, status CONFIRMED, empty texts. |
| VEvents.VEvent.Init | src/Calendar/VEvent.php:70-78 | `init` regenerates the uid and sequence and sets the four dates to now, leaving every other field unchanged. |
| VEvents.VEvent.SetTitle | src/Calendar/VEvent.php:101-104 | `setTitle` sets the summary and nothing else. |
| VEvents.VEvent.SetSummary | src/Calendar/VEvent.php:109-112 | Sets the summary only. |
| VEvents.VEvent.SetDescription | src/Calendar/VEvent.php:117-120 | Sets the description only. |
| VEvents.VEvent.SetUid | src/Calendar/VEvent.php:125-128 | Sets the uid only. |
| VEvents.VEvent.SetDtStart | src/Calendar/VEvent.php:133-136 | Sets the start only. |
| VEvents.VEvent.SetDtEnd | src/Calendar/VEvent.php:141-144 | Sets the end only. |
| VEvents.VEvent.AllDayEvent | src/Calendar/VEvent.php:149-152 | Sets the all-day flag only. |
| VEvents.VEvent.SetSequence | src/Calendar/VEvent.php:157-160 | Sets the sequence only. |
| VEvents.VEvent.SetLastModified | src/Calendar/VEvent.php:165-168 | Sets the last-modified instant only. |
| VEvents.VEvent.SetDtStamp | src/Calendar/VEvent.php:173-176 | Sets the stamp only. |
| VEvents.VEvent.SetLocation | src/Calendar/VEvent.php:181-184 | Sets the location only. |
| VEvents.VEvent.SetUrl | src/Calendar/VEvent.php:189-192 | Sets the url only. |
| VEvents.VEvent.SetStatus | src/Calendar/VEvent.php:197-200 | Sets the status only. |
| VCalendars.ProdIdResolution | src/Calendar/VCalendar.php:170-177 | A non-`empty()` product id is used as is. An empty one (`""` or `"0"`) falls back to `config('calendar.product_id')`, which defaults to the package's id, so with no configuration the PRODID is never empty. |
| VCalendars.CalendarIcs | src/Calendar/VCalendar.php:129-138 | The calendar text starts with `BEGIN:VCALENDAR` and EOL and ends with `END:VCALENDAR`, with no trailing EOL. |
| VCalendars.CalendarLayout | src/Calendar/VCalendar.php:129-193 | The calendar is the BEGIN, VERSION:2.0, METHOD and PRODID lines and each event's text, each followed by EOL, then END:VCALENDAR. An empty calendar has one empty line in place of the events. |
| VCalendars.EventsSectionFraming | src/Calendar/VCalendar.php:182-185 | `vEventsToString` ends every event text with exactly one EOL, and is a single EOL for no events. |
| VCalendars.EventsSectionAppend | src/Calendar/VCalendar.php:182-185 | Adding an event to a non-empty calendar appends its text and one EOL to the events section. |
| VCalendars.EventTextsAppend | src/Calendar/VCalendar.php:182-185 | Adding an event appends its text after the texts of the events already held. |
| VCalendars.CalendarAfterAdd | src/Calendar/VCalendar.php:85-193 | After `addVEvent(e)` the calendar is the header lines, the earlier events' texts in the order they were added, then `e`'s text, each followed by EOL, then END:VCALENDAR. |
| VCalendars.VCalendar.constructor | src/Calendar/VCalendar.php:55-80 | A new calendar has no events, METHOD PUBLISH and an empty product id. |
| VCalendars.VCalendar.Init | src/Calendar/VCalendar.php:77-80 | `init` empties the event list. |
| VCalendars.VCalendar.AddVEvent | src/Calendar/VCalendar.php:85-88 | The event is appended after the existing ones. |
| VCalendars.VCalendar.SetMethod | src/Calendar/VCalendar.php:101-104 | Sets the METHOD. |
| VCalendars.VCalendar.SetProdId | src/Calendar/VCalendar.php:109-112 | Sets the product id. |
| ChangeTracking.LtIrreflexive | src/Models/Traits/ChangeTrackable.php:58 | The byte-wise key order that `ksort` uses is irreflexive. |
| ChangeTracking.LtTransitive | src/Models/Traits/ChangeTrackable.php:58 | The key order is transitive. |
| ChangeTracking.LtTotal | src/Models/Traits/ChangeTrackable.php:58 | Any two distinct keys are ordered. |
| ChangeTracking.UpsertKeys | src/Models/Traits/ChangeTrackable.php:49-59 | Recording a change adds its key to the ledger's keys and removes none. |
| ChangeTracking.UpsertSorted | src/Models/Traits/ChangeTrackable.php:49-59 | Recording a change keeps the ledger sorted by key, as `ksort` leaves it. |
| ChangeTracking.UpsertLookup | src/Models/Traits/ChangeTrackable.php:49-59 | After `trackChange` the key's entry keeps the first recorded old value (or takes the given one if new) and has the new value. Every other key's entry is unchanged. |
| ChangeTracking.SortedLedgersAgree | src/Models/Traits/ChangeTrackable.php:49-59 | Two key-sorted ledgers with the same entries per key are equal, so the ledger is determined by its lookups. |
| ChangeTracking.TrackAll | src/Models/Traits/ChangeTrackable.php:28-42 | Running the hook over the dirty attributes keeps a sorted ledger sorted. |
| ChangeTracking.TrackAllLookup | src/Models/Traits/ChangeTrackable.php:28-59 | After a save, a key changed to a value different from its original gets an entry. The entry holds the first old value ever recorded (else the original) and the last new value. Keys not changed keep their entry. |
| ChangeTracking.TrackAllNeverShrinks | src/Models/Traits/ChangeTrackable.php:28-59 | Saving never removes a tracked key. |
| ChangeTracking.OnlyLookup | src/Models/Traits/ChangeTrackable.php:75-78 | `array_only` keeps exactly the listed keys' entries, in order. |
| ChangeTracking.ArrayForRestricts | src/Models/Traits/ChangeTrackable.php:64-78 | An empty list returns the whole ledger. Otherwise the result has exactly the ledger's entries for the listed keys. |
| ChangeTracking.HasAnyForIff | src/Models/Traits/ChangeTrackable.php:108-111 | `hasAnyTrackedChangesFor` holds exactly when some listed key is tracked, and never for an empty list. |
| ChangeTracking.TrackedArrayFilters | src/Models/Traits/ChangeTrackable.php:64-102 | Without a `$trackable` list (or with an empty one), `getTrackedChangesArray` is the whole ledger. With one, it is the ledger restricted to those keys, and `hasTrackedChanges` holds exactly when one of them is tracked. |
| ChangeTracking.RenderedConcat | src/Models/Traits/ChangeTrackable.php:172-183 | Each change is rendered on its own: rendering two ledgers one after the other gives the two renderings one after the other. |
| ChangeTracking.ChangesTextShape | src/Models/Traits/ChangeTrackable.php:165-186 | No changes render as `""` and one change as its entry alone. Each further change adds the delimiter, then its rendering. |
| ChangeTracking.TemplateRendering | src/Models/Traits/ChangeTrackable.php:165-186 | For a template `{attribute}…{old}…{new}…` whose other text has no `{`, and for values without `{`, the rendering substitutes the key and the two displayed values, each once. Empty values display as the configured placeholders. |
| ChangeTracking.LabelledTemplateRendering | src/Models/Traits/ChangeTrackable.php:175-180 | For a template `{attribute}…{label}…{old}…{new}…` whose other text, key, label and displayed values have no `{`, the rendering substitutes the key, the label (`title_case` of the key with `_` as spaces) and the two displayed values, each once. |
| ChangeTracking.DefaultFormatRendering | src/Models/Traits/ChangeTrackable.php:165-186 | The default format renders `key: old > new`. |
| ChangeTracking.SentenceTemplateExample | src/Models/Traits/ChangeTrackable.php:165-186 | The model's own example, not one of the package's tests: the template `{attribute} was changed from "{old}" to "{new}"` renders the name change of the tests as `name was changed from "Marty" to "Calvin Klein"`. |
| ChangeTracking.GetChangesString | src/Models/Traits/ChangeTrackable.php:165-186 | The loop builds exactly the delimiter-joined renderings of the changes. |
| ChangeTracking.SaveSequenceExample | tests/ChangeTrackableTest.php:99-156 | As in the tests: saving the name gives one entry; saving age 50 to 51 then puts `age` before `name`; with `trackable` `['age']` the first save shows nothing and the second only the age. The model adds a third save, age 51 to 52, which keeps old value 50 and takes new value 52. |
| ChangeTracking.ChangeTracker.constructor | src/Models/Traits/ChangeTrackable.php:12 | A model starts with an empty, sorted ledger. |
| ChangeTracking.ChangeTracker.TrackChange | src/Models/Traits/ChangeTrackable.php:49-59 | Updates the ledger by one recorded change and keeps it sorted. |
| ChangeTracking.ChangeTracker.TrackChanges | src/Models/Traits/ChangeTrackable.php:28-42 | Updates the ledger by every dirty attribute whose value differs from its original, in order, and keeps it sorted. |
| ChangeTracking.ChangeTracker.GetTrackedChanges | src/Models/Traits/ChangeTrackable.php:120-126 | Renders the ledger restricted to `$trackable`. |
| ChangeTracking.ChangeTracker.GetTrackedChangesFor | src/Models/Traits/ChangeTrackable.php:136-142 | Renders the ledger restricted to the given attributes, or all of it for an empty list. |
| ChangeTracking.ChangeTracker.GetTrackedChangesForAll | src/Models/Traits/ChangeTrackable.php:151-155 | Renders the whole ledger. |
| NameCasing.LowerAllIdempotent | src/Formatters/NameCase.php:39-40 | Lower-casing the force-lowercase list a second time changes nothing. |
| NameCasing.UpperAllIdempotent | src/Formatters/NameCase.php:42-43 | Upper-casing the force-uppercase list a second time changes nothing. |
| NameCasing.FormatNormalisesLists | src/Formatters/NameCase.php:39-43 | `format` gives the same result for a list and for the list already in the case it normalises to, so only the lists' lower- and upper-case forms matter. |
| NameCasing.RecaseAllKeepsLetters | src/Formatters/NameCase.php:50-69 | Re-casing every word changes only case: the words, and the words joined by any separator, are the same once lower-cased. |
| NameCasing.RecaseKeepsLetters | src/Formatters/NameCase.php:50-62 | Re-casing a word changes only its case. |
| NameCasing.PassKeepsLetters | src/Formatters/NameCase.php:45-70 | One delimiter pass changes only case and keeps the length, since split and join are inverse. |
| NameCasing.PassesFailureSticks | src/Formatters/NameCase.php:45-70 | Once a pass fails on an empty delimiter, the whole format fails. |
| NameCasing.PassesKeepLetters | src/Formatters/NameCase.php:45-70 | The passes fail exactly when some delimiter is empty. Otherwise the result equals the input up to case. |
| NameCasing.FormatKeepsLetters | src/Formatters/NameCase.php:34-73 | `format` fails exactly for an empty delimiter. Otherwise it keeps every letter and the length, and depends on the name only through its lower-case form. |
| NameCasing.Format | src/Formatters/NameCase.php:34-73 | The method computes the specification: lower-case, then the passes with the lists or their defaults. |
| NameCasing.RunPasses | src/Formatters/NameCase.php:45-70 | The delimiter loop computes the passes in order. |
| NameCaseExamples.DefaultListsNormalised | src/Formatters/NameCase.php:8-18 | The default lists are already in the case the formatter normalises them to. |
| NameCaseExamples.TimMcLeod | tests/Formatters/NameCaseTest.php:18 | `tim mcleod` formats to `Tim McLeod`: the `Mc` delimiter splits `mcleod` and re-cases `leod`. |
| NameCaseExamples.TimMcLeodShouted | tests/Formatters/NameCaseTest.php:19 | `TIM MCLEOD` formats to `Tim McLeod`. |
| NameCaseExamples.McLeodLower | src/Formatters/NameCase.php:22 | `mcleod` formats to `McLeod`. |
| NameCaseExamples.McLeodDocumented | src/Formatters/NameCase.php:22 | The documented example: `MCLEOD` formats to `McLeod`. |
| NameCaseExamples.LucasLAmour | tests/Formatters/NameCaseTest.php:20 | `lucas l'amour` formats to `Lucas l'Amour`: `l'` is in the force-lowercase list, so the `L'` delimiter is joined back in lower case. |
| NameCaseExamples.GeorgeDOnofrio | tests/Formatters/NameCaseTest.php:21 | `george d'onofrio` formats to `George d'Onofrio`, by the same lower-casing of the `D'` delimiter. |
| NameCaseExamples.JeanLucPicard | tests/Formatters/NameCaseTest.php:26 | `jean-luc picard` formats to `Jean-Luc Picard`: the `-` delimiter capitalises each part. |
| NameCaseExamples.PaulVanDerKnaap | tests/Formatters/NameCaseTest.php:25 | `paul van der knaap` formats to `Paul van der Knaap` with the defaults. |
| NameCaseExamples.HenricViii | tests/Formatters/NameCaseTest.php:28 | `hENRIC vIII` formats to `Henric VIII`. |
| NameCaseExamples.BillOConnorSpaceOnly | tests/Formatters/NameCaseTest.php:34 | With only a space delimiter, `bill o'connor` formats to `Bill O'connor`. |
| NameCaseExamples.BillOConnorForcedLower | tests/Formatters/NameCaseTest.php:37 | Forced-lowercase words stay lower: `BILL O'CONNOR` gives `bill o'connor`. |
| NameCaseExamples.BillOConnorForcedUpper | tests/Formatters/NameCaseTest.php:40 | Forced-uppercase words become upper: `bill o'connor` gives `BILL O'CONNOR`. |
| Text.SplitJoin | src/Formatters/NameCase.php:45-70 | `implode(d, explode(d, s)) == s` for a non-empty delimiter. |
| Text.SplitPiecesAvoidDelimiter | src/Formatters/NameCase.php:45-70 | No piece of `explode` contains the delimiter. |
| Text.FindFrom | src/Formatters/NameCase.php:45-70 | The search finds the first occurrence at or after the start, or reports that there is none. |
| Text.LowerConcat | src/Formatters/NameCase.php:36 | `strtolower` distributes over concatenation. |
| Text.CaseChangesAreInvisibleToLower | src/Formatters/NameCase.php:50-62 | Lower-casing after `strtoupper`, `ucfirst` or `strtolower` is the same as lower-casing the original. |

## Left out

- Time zones: `Carbon` values are converted with `->tz('UTC')` in the source. The model takes instants already in UTC (`UtcDateTime`), with years up to 9999.
- `uniqid()`, `time()` and `Carbon::now()` are parameters of the `VEvent` constructor and of `Init`. The source calls `Carbon::now()` four times (src/Calendar/VEvent.php:74-77), so the four dates can differ by the time between the calls; the model passes one `now` to all four.
- `PHP_EOL` is taken to be `"\n"`. RFC 5545 content-line folding and CRLF are not produced by the source and are not modelled.
- `IcsFormatter.EscapeRoundTrip`, `IcsFormatter.EscapeIsCharwise`: these exclude CR. The source turns both CRLF and a lone LF into `\n`, so for text with CR the escaped text does not determine the input.
- `VEvents.VEvent.ToIcs` and `VCalendars.VCalendar.ToIcs` have no contract of their own. They return the pure functions `EventIcs` and `CalendarIcs`, and the properties are stated about those.
- `__toString` of both calendar classes is the same as `toIcs` and is not repeated. The `vEvents()` getter is the field itself.
- The calendar holds references to events. A change to an event after it was added shows in the calendar's output (`EventTexts` reads the events); other aliasing is not modelled.
- `config()` is a parameter: `None` when `calendar.product_id` is not set (config/calendar.php:19 ships the default).
- Only the six `METHOD_*` constants the class defines are modelled.
- `ChangeTracking.Lt`: this orders keys by character code, which is `ksort` on non-numeric string keys. Numeric-string keys, which PHP compares as numbers, are not modelled.
- `array_set`/`array_has` dot notation is not modelled. A key containing `.` is treated as a flat key.
- Attribute values are the scalars the tests use (`null`, bool, int, string), compared with `!==`. Objects, arrays and floats are not modelled.
- `getOriginalAttributeValue`: model mutators and casts are not modelled. The original value is the raw one, or `null` when there is none.
- `bootChangeTrackable` registers the saving hook. Eloquent's event dispatch is not modelled; `TrackChanges` is what the hook runs.
- `title_case` is a parameter of the rendering functions.
- Case mapping is ASCII only. The source's `strtolower`/`strtoupper`/`ucfirst` act on bytes, so multibyte names are not modelled.
- `in_array` is strict equality here. For non-numeric strings PHP's loose comparison gives the same answer. PHP compares two numeric strings as numbers (`"1e1" == "10"`), so list entries and words that are numeric strings are not modelled.
- `explode` with an empty delimiter: the model returns `None` from `format`, standing for either PHP outcome. The package uses Laravel 5 helpers (`array_has`, `array_only`, `title_case`), which ran on PHP 7. On PHP 7 `explode` warns and returns `false`, the pass joins no words, and `format` returns `""` after warnings. PHP 8 throws a `ValueError` instead.
- `NameCaseExamples`: these test lines of tests/Formatters/NameCaseTest.php are proved: 18-21, 25, 26, 28 and the three overridden-list calls (34, 37, 40), together with the `MCLEOD` example of src/Formatters/NameCase.php:22. These lines are not written out: 17 (`michael o'carrol`), 22 (`william stanley iii`), 23 (`UNITED STATES OF AMERICA`), 24 (`t. von lieres und wilkau`), 27 (`JOHN MCLAREN`), 29 (`VAsco da GAma`) and 30-31 (`bill o'connor` with the default delimiters). Each example is a separate proof over all fifteen default delimiters, and the general properties (`FormatKeepsLetters` and the pass lemmas) hold for them all.
- `FileSavable`, `Uuidable`, `CopyLocalFileToCloud`, the service providers and `ViewModel` are not part of this model.
