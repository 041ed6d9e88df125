/** The part of `server` (main.tsx:43-64) that turns the query results into the feed text. */
module CalendarExport {
  import opened FeedTypes
  import opened ICalDate
  import opened NotionEvents
  import opened ICalFeed

  /** Map and filter the pages, then serialize the surviving events. */
  method ExportPages(toIso: Normalizer, pages: seq<Page>) returns (feed: string)
    requires AllHaveDateProperty(pages)
    ensures feed == Join(FeedLines(toIso, PagesToEvents(toIso, pages)), Crlf)
  {
    var events := PagesToEvents(toIso, pages);
    feed := GenerateICalFeed(toIso, events);
  }

  /** With a normaliser that yields canonical instants, every DTSTART and DTEND value
      in the feed is a UTC DATE-TIME `YYYYMMDDTHHMMSSZ`. */
  lemma ExportedDatesAreUtcDateTimes(toIso: Normalizer, pages: seq<Page>, i: int)
    requires AllHaveDateProperty(pages)
    requires NormalizesToCanonical(toIso)
    requires 0 <= i < |PagesToEvents(toIso, pages)|
    ensures var events := PagesToEvents(toIso, pages); var e := events[i];
      var lines := FeedLines(toIso, events);
      lines[3 + 7 * i + 3] == "DTSTART:" + FormatICalDate(toIso, e.start) &&
      lines[3 + 7 * i + 4] == "DTEND:" + FormatICalDate(toIso, e.end) &&
      IsICalUtcDateTime(FormatICalDate(toIso, e.start)) &&
      IsICalUtcDateTime(FormatICalDate(toIso, e.end))
  {
    var events := PagesToEvents(toIso, pages);
    EmittedEventsAreDated(toIso, pages);
    var e := events[i];
    assert e in events;
    FormatNormalized(toIso, e.start.value);
    FormatNormalized(toIso, e.end.value);
    EventBlockInFeed(toIso, events, i);
  }

  /** A page with a start and no end becomes a single zero-length VEVENT: its DTSTART
      and DTEND carry the same value. */
  lemma SinglePageWithoutEnd(toIso: Normalizer, page: Page)
    requires HasDateProperty(page) && HasStart(page) && !HasEnd(page)
    requires toIso(StartOf(page).value) != ""
    ensures var lines := FeedLines(toIso, PagesToEvents(toIso, [page]));
      var v := FormatICalDate(toIso, Some(toIso(StartOf(page).value)));
      |lines| == 11 &&
      lines[3] == "BEGIN:VEVENT" &&
      lines[4] == "UID:" + page.id &&
      lines[6] == "DTSTART:" + v &&
      lines[7] == "DTEND:" + v &&
      lines[9] == "END:VEVENT"
  {
    var e := ToEvent(toIso, page);
    var events := PagesToEvents(toIso, [page]);
    assert MapPages(toIso, [page]) == [e];
    assert events == [e];
    EventBlockInFeed(toIso, events, 0);
  }

  /** A page dated 2025-01-01T10:00:00.000Z without an end gets DTSTART and DTEND 20250101T100000Z. */
  lemma TimedPageExample(toIso: Normalizer, page: Page, c: string)
    requires c == "2025-01-01T10:00:00.000Z" && toIso(c) == c
    requires HasDateProperty(page) && StartOf(page) == Some(c) && !HasEnd(page)
    ensures var lines := FeedLines(toIso, PagesToEvents(toIso, [page]));
      |lines| == 11 &&
      lines[6] == "DTSTART:" + "20250101T100000Z" &&
      lines[7] == "DTEND:" + "20250101T100000Z"
  {
    var v := FormatICalDate(toIso, Some(toIso(c)));
    assert v == "20250101T100000Z" by {
      assert v == Compact(c);
      CompactExample(c);
    }
    SinglePageWithoutEnd(toIso, page);
  }
}
