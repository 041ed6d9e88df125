# Notion database to iCalendar feed — verified model

This project models the core of `main.tsx`, a request handler that turns the pages of a
Notion database into an iCalendar document. It covers three pieces.

- **The page-to-event mapping** (`NotionEvents`). Each page becomes an event record:
  - `uid` is the page id.
  - `title` is the first title fragment's plain text, or `Untitled Event`.
  - `start` and `end` are normalised instants, and `end` falls back to `start`.
  - `description` is the public URL, else the URL, else the empty string.

  Records without a start are then dropped.
- **The date formatter `formatICalDate`** (`ICalDate`). It turns an ISO-8601 UTC instant
  into the UTC DATE-TIME form of section 3.3.5 of RFC 5545. It deletes every `-` and `:`,
  cuts at the first `.`, and appends `Z`. A missing or empty input gives `""`.
- **The serializer `generateICalFeed`** (`ICalFeed`). It builds the line list of an
  iCalendar object (section 3.4 of RFC 5545). There are three header lines, one seven-line
  VEVENT block per event in input order, and a footer. The lines are joined with CRLF
  (section 3.1 of RFC 5545). No text escaping and no line folding are done.

`CalendarExport` composes the mapping and the serializer, as `server` does at main.tsx:43-64.

JavaScript's `new Date(x).toISOString()` is foreign code. It is a parameter `toIso` of type
`Normalizer`. Lemmas that need its real behaviour say so in their preconditions:
- `NeverEmpty`: it never returns the empty string.
- `NormalizesToCanonical`: it always returns `YYYY-MM-DDTHH:MM:SS.sssZ`.
- `FixesCanonical`: it returns a canonical instant unchanged.

JavaScript truthiness of a possibly missing string is `Truthy`: present and non-empty.

`Join` models `Array.prototype.join`, which `main.tsx:100` calls. `Split` is a reference
model of `String.prototype.split` with the separator CRLF. Nothing in `main.tsx` splits;
`Split` exists only to state the round trip of the CRLF join.

The serializer is imperative in the source: it pushes onto an array inside a `forEach`.
It is modelled as the method `GenerateICalFeed`, with a loop over a `seq<string>` and a
loop invariant. The method is proved equal to the specification function `FeedLines`,
joined by CRLF. The mapping and the formatter are expression chains in the source and are
modelled as functions with lemmas.

`main.tsx` has none of the following, and neither does the model:
- No all-day (`VALUE=DATE`) handling and no exclusive end date. Every date goes through
  `toISOString`.
- No overdue aggregate, no done checkmark and no timezone parameter.
- No skipping of a page without the `Date` property. `main.tsx` throws a TypeError there,
  so here it is a precondition (`HasDateProperty`).

## Model

| member | source | states |
|---|---|---|
| `ICalDate.Strip` | main.tsx:106 | `replace(/[-:]/g, "")`: the result holds no `-` and no `:` and is no longer than the input |
| `ICalDate.StripChars` | main.tsx:106 | the replace keeps exactly the characters of the input other than `-` and `:` |
| `ICalDate.BeforeDot` | main.tsx:106 | `split(".")[0]` is a prefix of the input without `.`, and is either the whole input or stops right before its first `.` |
| `ICalDate.Compact` | main.tsx:106 | the formatted instant ends in `Z`, contains no `-`, `:` or `.`, and every other character comes from the input |
| `ICalDate.FormatICalDate` | main.tsx:103-107 | the result is `""` exactly when the input is missing or empty; otherwise it ends in `Z` and contains no `-` or `:` |
| `ICalDate.CanonicalStrip` | main.tsx:106 | on a canonical instant, the replace leaves the date digits, `T`, the time digits and `.sssZ`, in order |
| `ICalDate.CanonicalCompact` | main.tsx:105-106 | `YYYY-MM-DDTHH:MM:SS.sssZ` becomes exactly `YYYYMMDDTHHMMSSZ`: 16 characters, the digits in order, one trailing `Z`, a UTC DATE-TIME of RFC 5545 |
| `ICalDate.CompactDropsOnlyMillis` | main.tsx:106 | two canonical instants format alike if and only if they agree up to the seconds, so only the milliseconds are lost |
| `ICalDate.CompactExample` | main.tsx:103-107 | `2025-01-01T10:00:00.000Z` is formatted as `20250101T100000Z` |
| `ICalDate.FormatCanonical` | main.tsx:103-107 | when re-normalising leaves canonical instants alone, `formatICalDate` of a canonical instant is its compacted form, a UTC DATE-TIME |
| `ICalDate.FormatNormalized` | main.tsx:103-107 | with a normaliser that yields canonical instants, a present non-empty value is formatted as a UTC DATE-TIME `YYYYMMDDTHHMMSSZ` |
| `NotionEvents.DateOf` | main.tsx:45-48 | the date value is the `Date` property's date when that property is a date property, and missing otherwise |
| `NotionEvents.StartOf` | main.tsx:48 | `date?.start` is present only when the date is, and then it is the date's start |
| `NotionEvents.EndOf` | main.tsx:49 | `date?.end` is present only when the date is, and then it is the date's end |
| `NotionEvents.FirstTitleText` | main.tsx:52 | `Name?.title?.[0]?.plain_text` is present exactly when `Name` is a title property with at least one fragment, and then it is the first fragment's text |
| `NotionEvents.ToEvent` | main.tsx:43-60 | uid is the page id; title is the first fragment's text when truthy, else `Untitled Event`, so it is never empty; start is present iff the date has a truthy start; end is the normalised end when truthy, else equal to start; description is the public URL, else the URL, else `""` |
| `NotionEvents.MapPages` | main.tsx:43-60 | `.map` yields one event per page, event `i` from page `i` |
| `NotionEvents.KeepStarted` | main.tsx:61 | `.filter` keeps every event with a truthy start and only those |
| `NotionEvents.PagesToEvents` | main.tsx:43-61 | every emitted event has a truthy start, and there are at most as many events as pages |
| `NotionEvents.DatedPages` | main.tsx:48-61 | reference definition: the pages whose date has a start, an order-preserving subsequence of the query results that contains each such page exactly as many times as the results do, and no other page |
| `NotionEvents.PagesToEventsKeepsDatedPages` | main.tsx:43-61 | for a non-empty normaliser, the mapping drops exactly the pages without a start and maps the rest one by one in their original order |
| `NotionEvents.EmittedEventsAreDated` | main.tsx:48-61 | with a canonical normaliser, every emitted event has a canonical start and a canonical end |
| `ICalFeed.EventLines` | main.tsx:87-95 | each event contributes exactly seven lines |
| `ICalFeed.Blocks` | main.tsx:86-96 | n events give 7n block lines |
| `ICalFeed.FeedLines` | main.tsx:80-98 | the document has 4 + 7n lines; the first three are `BEGIN:VCALENDAR`, `VERSION:2.0`, `PRODID:-//Notion Calendar Export//EN`; the last is `END:VCALENDAR` |
| `ICalFeed.GenerateICalFeed` | main.tsx:79-101 | the loop that pushes header, one block per event and footer produces exactly `FeedLines` joined by CRLF |
| `ICalFeed.BlockAt` | main.tsx:86-96 | block lines 7i to 7i + 6 are the seven lines of event i |
| `ICalFeed.FeedBlockAt` | main.tsx:80-96 | document lines 3 + 7i to 9 + 7i are the seven lines of event i, so the blocks appear in input order |
| `ICalFeed.EventBlockInFeed` | main.tsx:86-96 | event i yields the consecutive lines `BEGIN:VEVENT`, `UID:`uid, `SUMMARY:`title, `DTSTART:`fmt(start), `DTEND:`fmt(end), `DESCRIPTION:`description, `END:VEVENT` |
| `ICalFeed.Join` | main.tsx:100 | `join` of no lines is `""`; otherwise the text starts with the first line and ends with the last, and with two or more lines the separator follows the first line |
| `ICalFeed.SplitJoin` | main.tsx:100 | splitting a CRLF join on CRLF gives the lines back when no line contains CRLF (a line may end in CR) |
| `ICalFeed.SplitPiecesHaveNoCrlf` | main.tsx:100 | no piece of a split on CRLF contains CRLF |
| `ICalFeed.FeedSplitsIntoLines` | main.tsx:80-100 | when no uid, title, description or formatted DTSTART/DTEND value contains CRLF, splitting the document on CRLF recovers its 4 + 7n lines |
| `ICalFeed.FeedSplitsIntoLinesOnlyIfNoCrlf` | main.tsx:87-100 | if any uid, title, description or formatted DTSTART/DTEND value contains CRLF, splitting the document on CRLF does not give its lines back, because nothing is escaped or folded |
| `ICalFeed.FeedSplitsIntoLinesIff` | main.tsx:80-100 | the document splits on CRLF into exactly its lines if and only if no event field or formatted instant contains CRLF |
| `CalendarExport.ExportPages` | main.tsx:43-64 | the feed text is the serialisation of the mapped and filtered pages |
| `CalendarExport.ExportedDatesAreUtcDateTimes` | main.tsx:91-92 | with a normaliser that yields canonical instants, line 3 + 7i + 3 is `DTSTART:` and line 3 + 7i + 4 is `DTEND:`, each followed by a UTC DATE-TIME `YYYYMMDDTHHMMSSZ` |
| `CalendarExport.SinglePageWithoutEnd` | main.tsx:48-58 | a page with a start and no end gives an 11-line document whose single VEVENT has the same DTSTART and DTEND value, a zero-length event |
| `CalendarExport.TimedPageExample` | main.tsx:103-107 | a page dated `2025-01-01T10:00:00.000Z` without an end serialises to `DTSTART:20250101T100000Z` and `DTEND:20250101T100000Z` |

## Left out

- Reading `NOTION_API_TOKEN` and `NOTION_EVENTS_DATABASE_ID` and the 500 response for missing credentials (main.tsx:6-13). This is environment I/O.
- Building the Notion client and the `databases.query` call with its filter (main.tsx:15, 22-40). These are network calls into a foreign library; the query results are the input `pages`.
- The 18-month cutoff computed with `Date.setMonth` (main.tsx:18-19). It depends on the clock and only feeds the remote filter.
- `new Date(x)` and `toISOString` (main.tsx:48-49, 105). They are the parameter `toIso`. Calendar arithmetic and the `RangeError` thrown for invalid dates are not modelled.
- Years outside 0000-9999, for which `toISOString` writes `±YYYYYY`. The canonical-instant lemmas cover only the 24-character form.
- The `Response` with its headers and the `try/catch` that turns failures into a 500 (main.tsx:67-76). This is HTTP plumbing.
- The TypeError thrown when a page lacks the `Date` property (main.tsx:45). It is a precondition instead.
- Text escaping (section 3.3.11 of RFC 5545) and 75-octet line folding (section 3.1 of RFC 5545). The code does neither, so the model does neither. `FeedSplitsIntoLinesOnlyIfNoCrlf` shows the effect.
- All-day dates, exclusive end dates, the overdue aggregate, the done checkmark and timezones. None of these exists in `main.tsx`.
