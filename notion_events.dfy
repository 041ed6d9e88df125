/** The page-to-event mapping of main.tsx:43-61: every page of the database query
    becomes an event record, and records without a start are dropped. */
module NotionEvents {
  import opened FeedTypes
  import ICalDate

  const DatePropertyName := "Date"
  const TitlePropertyName := "Name"
  const UntitledTitle := "Untitled Event"

  /** A Notion date value; either bound may be null. */
  datatype DateRange = DateRange(start: Option<string>, end: Option<string>)

  /** One fragment of a rich-text value. */
  datatype RichText = RichText(plainText: string)

  /** A page property: a date, a title, or a kind the mapping does not read. */
  datatype Property =
    | DateProperty(date: Option<DateRange>)
    | TitleProperty(title: seq<RichText>)
    | OtherProperty

  datatype Page = Page(
    id: string,
    properties: map<string, Property>,
    url: Option<string>,
    publicUrl: Option<string>)

  /** `page.properties[datePropertyName]` is defined; without it the source throws. */
  predicate HasDateProperty(page: Page) {
    DatePropertyName in page.properties
  }

  predicate AllHaveDateProperty(pages: seq<Page>) {
    forall p :: p in pages ==> HasDateProperty(p)
  }

  /** `dateProperty.date`: missing when the property is not a date or is null. */
  function DateOf(page: Page): (d: Option<DateRange>)
    requires HasDateProperty(page)
    ensures page.properties[DatePropertyName].DateProperty? ==> d == page.properties[DatePropertyName].date
    ensures !page.properties[DatePropertyName].DateProperty? ==> d == None
  {
    match page.properties[DatePropertyName]
    case DateProperty(d) => d
    case _ => None
  }

  /** `dateProperty.date?.start` */
  function StartOf(page: Page): (s: Option<string>)
    requires HasDateProperty(page)
    ensures s.Some? ==> DateOf(page).Some? && s == DateOf(page).value.start
    ensures DateOf(page).Some? ==> s == DateOf(page).value.start
  {
    if DateOf(page).Some? then DateOf(page).value.start else None
  }

  /** `dateProperty.date?.end` */
  function EndOf(page: Page): (s: Option<string>)
    requires HasDateProperty(page)
    ensures s.Some? ==> DateOf(page).Some? && s == DateOf(page).value.end
    ensures DateOf(page).Some? ==> s == DateOf(page).value.end
  {
    if DateOf(page).Some? then DateOf(page).value.end else None
  }

  predicate HasStart(page: Page)
    requires HasDateProperty(page)
  {
    Truthy(StartOf(page))
  }

  predicate HasEnd(page: Page)
    requires HasDateProperty(page)
  {
    Truthy(EndOf(page))
  }

  /** `page.properties.Name?.title?.[0]?.plain_text` */
  function FirstTitleText(page: Page): (t: Option<string>)
    ensures t.Some? <==>
      TitlePropertyName in page.properties && page.properties[TitlePropertyName].TitleProperty? &&
      |page.properties[TitlePropertyName].title| > 0
    ensures t.Some? ==> t.value == page.properties[TitlePropertyName].title[0].plainText
  {
    if TitlePropertyName in page.properties
       && page.properties[TitlePropertyName].TitleProperty?
       && |page.properties[TitlePropertyName].title| > 0
    then Some(page.properties[TitlePropertyName].title[0].plainText)
    else None
  }

  /** The normaliser never yields the empty string (as `toISOString` never does). */
  ghost predicate NeverEmpty(toIso: Normalizer) {
    forall s :: toIso(s) != ""
  }

  /** The mapping callback of main.tsx:43-60 for one page. */
  function ToEvent(toIso: Normalizer, page: Page): (e: Event)
    requires HasDateProperty(page)
    ensures e.uid == page.id
    ensures e.title != ""
    ensures Truthy(FirstTitleText(page)) ==> e.title == FirstTitleText(page).value
    ensures !Truthy(FirstTitleText(page)) ==> e.title == UntitledTitle
    ensures e.start.Some? <==> HasStart(page)
    ensures HasStart(page) ==> e.start == Some(toIso(StartOf(page).value))
    ensures HasEnd(page) ==> e.end == Some(toIso(EndOf(page).value))
    ensures !HasEnd(page) ==> e.end == e.start
    ensures Truthy(page.publicUrl) ==> e.description == page.publicUrl.value
    ensures !Truthy(page.publicUrl) && Truthy(page.url) ==> e.description == page.url.value
    ensures !Truthy(page.publicUrl) && !Truthy(page.url) ==> e.description == ""
  {
    var start := if HasStart(page) then Some(toIso(StartOf(page).value)) else None;
    var end := if HasEnd(page) then Some(toIso(EndOf(page).value)) else start;
    var title := if Truthy(FirstTitleText(page)) then FirstTitleText(page).value else UntitledTitle;
    var description :=
      if Truthy(page.publicUrl) then page.publicUrl.value
      else if Truthy(page.url) then page.url.value
      else "";
    Event(page.id, title, start, end, description)
  }

  /** `response.results.map(...)` */
  function MapPages(toIso: Normalizer, pages: seq<Page>): (r: seq<Event>)
    requires AllHaveDateProperty(pages)
    ensures |r| == |pages|
    ensures forall i :: 0 <= i < |pages| ==> r[i] == ToEvent(toIso, pages[i])
  {
    if pages == [] then [] else [ToEvent(toIso, pages[0])] + MapPages(toIso, pages[1..])
  }

  /** `.filter(event => event.start)` */
  function KeepStarted(events: seq<Event>): (r: seq<Event>)
    ensures forall e :: e in r ==> Truthy(e.start) && e in events
    ensures forall e :: e in events && Truthy(e.start) ==> e in r
    ensures |r| <= |events|
  {
    if events == [] then []
    else (if Truthy(events[0].start) then [events[0]] else []) + KeepStarted(events[1..])
  }

  /** The events of main.tsx:43-61, in the order of the query results. */
  function PagesToEvents(toIso: Normalizer, pages: seq<Page>): (r: seq<Event>)
    requires AllHaveDateProperty(pages)
    ensures forall e :: e in r ==> Truthy(e.start)
    ensures |r| <= |pages|
  {
    KeepStarted(MapPages(toIso, pages))
  }

  /** `a` is `b` with some elements removed, the rest in their order. */
  predicate IsSubsequence<T(==)>(a: seq<T>, b: seq<T>)
    decreases |b|
  {
    if a == [] then true
    else if b == [] then false
    else (a[0] == b[0] && IsSubsequence(a[1..], b[1..])) || IsSubsequence(a, b[1..])
  }

  /** Reference definition: the pages whose date has a start, in query order. */
  function DatedPages(pages: seq<Page>): (r: seq<Page>)
    requires AllHaveDateProperty(pages)
    ensures AllHaveDateProperty(r)
    ensures forall p :: p in r ==> HasStart(p)
    ensures forall p :: p in pages && HasStart(p) ==> p in r
    ensures IsSubsequence(r, pages)
    ensures forall p :: p in pages ==> multiset(r)[p] == (if HasStart(p) then multiset(pages)[p] else 0)
    ensures forall p :: p !in pages ==> multiset(r)[p] == 0
  {
    if pages == [] then []
    else
      var rest := DatedPages(pages[1..]);
      assert pages == [pages[0]] + pages[1..];
      assert forall p :: p in pages[1..] ==> p in pages;
      if HasStart(pages[0]) then
        assert ([pages[0]] + rest)[1..] == rest;
        [pages[0]] + rest
      else
        assert rest == [] || (rest != [] && IsSubsequence(rest, pages[1..]));
        rest
  }

  /** The mapping drops exactly the pages whose date has no start and keeps the
      others, mapped one by one, in their original order. */
  lemma {:induction false} PagesToEventsKeepsDatedPages(toIso: Normalizer, pages: seq<Page>)
    requires AllHaveDateProperty(pages)
    requires NeverEmpty(toIso)
    ensures PagesToEvents(toIso, pages) == MapPages(toIso, DatedPages(pages))
  {
    if pages != [] {
      PagesToEventsKeepsDatedPages(toIso, pages[1..]);
      var events := MapPages(toIso, pages);
      assert events[1..] == MapPages(toIso, pages[1..]);
      var e := ToEvent(toIso, pages[0]);
      assert Truthy(e.start) <==> HasStart(pages[0]);
      if HasStart(pages[0]) {
        var dated := [pages[0]] + DatedPages(pages[1..]);
        assert dated[1..] == DatedPages(pages[1..]);
      }
    }
  }

  /** Every emitted event has a start and an end, and with a canonical normaliser both are canonical instants. */
  lemma EmittedEventsAreDated(toIso: Normalizer, pages: seq<Page>)
    requires AllHaveDateProperty(pages)
    requires ICalDate.NormalizesToCanonical(toIso)
    ensures forall e :: e in PagesToEvents(toIso, pages) ==>
      e.start.Some? && ICalDate.IsCanonicalInstant(e.start.value) &&
      e.end.Some? && ICalDate.IsCanonicalInstant(e.end.value)
  {
    var mapped := MapPages(toIso, pages);
    forall e | e in PagesToEvents(toIso, pages)
      ensures e.start.Some? && ICalDate.IsCanonicalInstant(e.start.value)
      ensures e.end.Some? && ICalDate.IsCanonicalInstant(e.end.value)
    {
      assert e in mapped;
      var i :| 0 <= i < |mapped| && e == mapped[i];
      assert pages[i] in pages;
      assert HasStart(pages[i]);
      assert ICalDate.IsCanonicalInstant(toIso(StartOf(pages[i]).value));
      if HasEnd(pages[i]) {
        assert ICalDate.IsCanonicalInstant(toIso(EndOf(pages[i]).value));
      }
    }
  }
}
