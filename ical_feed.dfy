/** `generateICalFeed` (main.tsx:79-101): an iCalendar object (section 3.4 of RFC 5545)
    with one VEVENT per event, its lines joined by CRLF, with no escaping and no folding. */
module ICalFeed {
  import opened FeedTypes
  import opened ICalDate

  const Crlf := "\r\n"
  const Header: seq<string> := ["BEGIN:VCALENDAR", "VERSION:2.0", "PRODID:-//Notion Calendar Export//EN"]
  const Footer := "END:VCALENDAR"

  /** The seven lines pushed for one event (main.tsx:87-95). */
  function EventLines(toIso: Normalizer, e: Event): (r: seq<string>)
    ensures |r| == 7
  {
    [ "BEGIN:VEVENT",
      "UID:" + e.uid,
      "SUMMARY:" + e.title,
      "DTSTART:" + FormatICalDate(toIso, e.start),
      "DTEND:" + FormatICalDate(toIso, e.end),
      "DESCRIPTION:" + e.description,
      "END:VEVENT" ]
  }

  /** The seven-line groups of `events`, one per event, in order. */
  function EventChunks(toIso: Normalizer, events: seq<Event>): (r: seq<seq<string>>)
    ensures |r| == |events|
    ensures forall k :: 0 <= k < |r| ==> r[k] == EventLines(toIso, events[k])
  {
    seq(|events|, k requires 0 <= k < |events| => EventLines(toIso, events[k]))
  }

  /** The concatenation of `chunks`, in order. */
  function Flatten<T>(chunks: seq<seq<T>>): seq<T> {
    if chunks == [] then [] else Flatten(chunks[..|chunks| - 1]) + chunks[|chunks| - 1]
  }

  /** The VEVENT blocks of `events`, in order. */
  function Blocks(toIso: Normalizer, events: seq<Event>): (r: seq<string>)
    ensures |r| == 7 * |events|
  {
    FlattenAt(EventChunks(toIso, events), 0);
    Flatten(EventChunks(toIso, events))
  }

  /** The lines of the document before they are joined. */
  function FeedLines(toIso: Normalizer, events: seq<Event>): (r: seq<string>)
    ensures |r| == 4 + 7 * |events|
    ensures r[..3] == Header && r[|r| - 1] == Footer
  {
    Header + Blocks(toIso, events) + [Footer]
  }

  /** `lines.join(sep)`: the lines in order, consecutive ones separated by `sep`. */
  function Join(lines: seq<string>, sep: string): (r: string)
    ensures |lines| == 0 ==> r == ""
    ensures |lines| > 0 ==> lines[0] <= r
    ensures |lines| > 0 ==> |r| >= |lines[|lines| - 1]| && r[|r| - |lines[|lines| - 1]|..] == lines[|lines| - 1]
    ensures |lines| >= 2 ==> |r| >= |lines[0]| + |sep| && r[|lines[0]| .. |lines[0]| + |sep|] == sep
  {
    if |lines| == 0 then ""
    else if |lines| == 1 then lines[0]
    else lines[0] + sep + Join(lines[1..], sep)
  }

  /** `s.split("\r\n")`: the pieces between the leftmost non-overlapping CRLFs. */
  function Split(s: string): (r: seq<string>)
    ensures |r| >= 1 && r[0] <= s
  {
    if |s| == 0 then [""]
    else if |s| >= 2 && s[0] == '\r' && s[1] == '\n' then [""] + Split(s[2..])
    else
      var rest := Split(s[1..]);
      [[s[0]] + rest[0]] + rest[1..]
  }

  /** `generateICalFeed`: header, one block per event in input order, footer, joined by CRLF. */
  method GenerateICalFeed(toIso: Normalizer, events: seq<Event>) returns (feed: string)
    ensures feed == Join(FeedLines(toIso, events), Crlf)
  {
    var lines := Header;
    for i := 0 to |events|
      invariant lines == Header + Blocks(toIso, events[..i])
    {
      var e := events[i];
      lines := lines + [
        "BEGIN:VEVENT",
        "UID:" + e.uid,
        "SUMMARY:" + e.title,
        "DTSTART:" + FormatICalDate(toIso, e.start),
        "DTEND:" + FormatICalDate(toIso, e.end),
        "DESCRIPTION:" + e.description,
        "END:VEVENT"];
      assert EventChunks(toIso, events[..i + 1]) == EventChunks(toIso, events[..i]) + [EventLines(toIso, e)];
    }
    assert events[..|events|] == events;
    lines := lines + [Footer];
    feed := Join(lines, Crlf);
  }

  /** In a concatenation of seven-element chunks, chunk `i` sits at 7i to 7i + 7. */
  lemma {:induction false} FlattenAt<T>(chunks: seq<seq<T>>, i: int)
    requires forall k :: 0 <= k < |chunks| ==> |chunks[k]| == 7
    ensures |Flatten(chunks)| == 7 * |chunks|
    ensures 0 <= i < |chunks| ==> Flatten(chunks)[7 * i .. 7 * i + 7] == chunks[i]
  {
    if chunks != [] {
      var n := |chunks| - 1;
      var init := chunks[..n];
      FlattenAt(init, if i < n then i else 0);
      var front, last := Flatten(init), chunks[n];
      assert Flatten(chunks) == front + last;
      if 0 <= i < n {
        assert init[i] == chunks[i];
        assert (front + last)[7 * i .. 7 * i + 7] == front[7 * i .. 7 * i + 7];
      } else if i == n {
        assert (front + last)[|front| ..] == last;
      }
    }
  }

  /** Block `i` of the blocks is the seven lines of event `i`. */
  lemma BlockAt(toIso: Normalizer, events: seq<Event>, i: int)
    requires 0 <= i < |events|
    ensures Blocks(toIso, events)[7 * i .. 7 * i + 7] == EventLines(toIso, events[i])
  {
    FlattenAt(EventChunks(toIso, events), i);
  }

  /** Event `i` occupies the seven lines after the header and the `i` blocks before it. */
  lemma FeedBlockAt(toIso: Normalizer, events: seq<Event>, i: int)
    requires 0 <= i < |events|
    ensures FeedLines(toIso, events)[3 + 7 * i .. 10 + 7 * i] == EventLines(toIso, events[i])
  {
    var blocks := Blocks(toIso, events);
    var lines := FeedLines(toIso, events);
    BlockAt(toIso, events, i);
    assert lines[3 .. 3 + |blocks|] == blocks;
    assert lines[3 + 7 * i .. 10 + 7 * i] == lines[3 .. 3 + |blocks|][7 * i .. 7 * i + 7];
  }

  /** The seven elements of a slice of length seven. */
  lemma SevenAt<T>(s: seq<T>, k: int, block: seq<T>)
    requires 0 <= k && k + 7 <= |s| && s[k .. k + 7] == block
    ensures s[k] == block[0] && s[k + 1] == block[1] && s[k + 2] == block[2] && s[k + 3] == block[3]
    ensures s[k + 4] == block[4] && s[k + 5] == block[5] && s[k + 6] == block[6]
  {
  }

  /** Event `i` yields lines 3 + 7i to 9 + 7i of the document, in the fixed field order. */
  lemma EventBlockInFeed(toIso: Normalizer, events: seq<Event>, i: int)
    requires 0 <= i < |events|
    ensures var lines := FeedLines(toIso, events); var e := events[i]; var k := 3 + 7 * i;
      lines[k] == "BEGIN:VEVENT" &&
      lines[k + 1] == "UID:" + e.uid &&
      lines[k + 2] == "SUMMARY:" + e.title &&
      lines[k + 3] == "DTSTART:" + FormatICalDate(toIso, e.start) &&
      lines[k + 4] == "DTEND:" + FormatICalDate(toIso, e.end) &&
      lines[k + 5] == "DESCRIPTION:" + e.description &&
      lines[k + 6] == "END:VEVENT"
  {
    FeedBlockAt(toIso, events, i);
    SevenAt(FeedLines(toIso, events), 3 + 7 * i, EventLines(toIso, events[i]));
  }

  /** `s` holds a CR immediately followed by an LF. */
  predicate ContainsCrlf(s: string) {
    exists i :: 0 <= i < |s| - 1 && s[i] == '\r' && s[i + 1] == '\n'
  }

  /** Dropping the first character keeps a string free of CRLF. */
  lemma NoCrlfTail(s: string)
    requires |s| > 0 && !ContainsCrlf(s)
    ensures !ContainsCrlf(s[1..])
  {
    forall i | 0 <= i < |s| - 2
      ensures !(s[1..][i] == '\r' && s[1..][i + 1] == '\n')
    {
      assert s[1..][i] == s[i + 1] && s[1..][i + 1] == s[i + 2];
    }
  }

  /** Two CRLF-free strings stay CRLF-free when the first does not end in CR. */
  lemma NoCrlfConcat(a: string, b: string)
    requires !ContainsCrlf(a) && !ContainsCrlf(b)
    requires |a| == 0 || a[|a| - 1] != '\r'
    ensures !ContainsCrlf(a + b)
  {
    var s := a + b;
    forall i | 0 <= i < |s| - 1
      ensures !(s[i] == '\r' && s[i + 1] == '\n')
    {
      if i + 1 < |a| {
        assert s[i] == a[i] && s[i + 1] == a[i + 1];
      } else if i + 1 == |a| {
        assert s[i] == a[i];
      } else {
        assert s[i] == b[i - |a|] && s[i + 1] == b[i + 1 - |a|];
      }
    }
  }

  /** A string without CR has no CRLF. */
  lemma NoCrNoCrlf(s: string)
    requires '\r' !in s
    ensures !ContainsCrlf(s)
  {
    forall i | 0 <= i < |s| - 1
      ensures s[i] != '\r'
    {
      assert s[i] in s;
    }
  }

  /** A CR-free prefix before a CRLF-free value gives a CRLF-free line. */
  lemma PrefixNoCrlf(prefix: string, value: string)
    requires '\r' !in prefix && !ContainsCrlf(value)
    ensures !ContainsCrlf(prefix + value)
  {
    NoCrNoCrlf(prefix);
    if |prefix| > 0 {
      assert prefix[|prefix| - 1] in prefix;
    }
    NoCrlfConcat(prefix, value);
  }

  /** A string without CRLF is a single piece of its split. */
  lemma {:induction false} SplitSingle(line: string)
    requires !ContainsCrlf(line)
    ensures Split(line) == [line]
  {
    if line != [] {
      if |line| >= 2 {
        assert !(line[0] == '\r' && line[1] == '\n');
      }
      NoCrlfTail(line);
      SplitSingle(line[1..]);
      assert [line[0]] + line[1..] == line;
    }
  }

  /** A CRLF-free line before a CRLF is split off as the first piece, even when it ends in CR. */
  lemma {:induction false} SplitAfterLine(line: string, rest: string)
    requires !ContainsCrlf(line)
    ensures Split(line + Crlf + rest) == [line] + Split(rest)
  {
    var s := line + Crlf + rest;
    if line == [] {
      assert s[2..] == rest;
    } else {
      if |line| >= 2 {
        assert s[0] == line[0] && s[1] == line[1];
        assert !(line[0] == '\r' && line[1] == '\n');
      } else {
        assert s[1] == '\r';
      }
      assert s[1..] == line[1..] + Crlf + rest;
      NoCrlfTail(line);
      SplitAfterLine(line[1..], rest);
      assert [line[0]] + line[1..] == line;
    }
  }

  /** Splitting the joined lines on CRLF gives the lines back when none contains CRLF. */
  lemma {:induction false} SplitJoin(lines: seq<string>)
    requires |lines| > 0
    requires forall k :: 0 <= k < |lines| ==> !ContainsCrlf(lines[k])
    ensures Split(Join(lines, Crlf)) == lines
  {
    if |lines| == 1 {
      SplitSingle(lines[0]);
    } else {
      var tail := lines[1..];
      forall k | 0 <= k < |tail|
        ensures !ContainsCrlf(tail[k])
      {
        assert tail[k] == lines[k + 1];
      }
      SplitJoin(tail);
      var rest := Join(tail, Crlf);
      assert Join(lines, Crlf) == lines[0] + Crlf + rest;
      SplitAfterLine(lines[0], rest);
      assert [lines[0]] + tail == lines;
    }
  }

  /** No piece of a split holds a CRLF. */
  lemma {:induction false} SplitPiecesHaveNoCrlf(s: string)
    ensures forall k :: 0 <= k < |Split(s)| ==> !ContainsCrlf(Split(s)[k])
    decreases |s|
  {
    if |s| == 0 {
    } else if |s| >= 2 && s[0] == '\r' && s[1] == '\n' {
      SplitPiecesHaveNoCrlf(s[2..]);
      assert !ContainsCrlf("");
    } else {
      SplitPiecesHaveNoCrlf(s[1..]);
      var rest := Split(s[1..]);
      var piece := [s[0]] + rest[0];
      assert !ContainsCrlf(rest[0]);
      forall i | 0 <= i < |piece| - 1
        ensures !(piece[i] == '\r' && piece[i + 1] == '\n')
      {
        if i == 0 {
          assert piece[1] == rest[0][0] == s[1];
        } else {
          assert piece[i] == rest[0][i - 1] && piece[i + 1] == rest[0][i];
        }
      }
      forall k | 0 <= k < |Split(s)|
        ensures !ContainsCrlf(Split(s)[k])
      {
        if k > 0 {
          assert Split(s)[k] == rest[k];
        }
      }
    }
  }

  /** Every element of a concatenation of seven-element chunks comes from one of the chunks. */
  lemma {:induction false} FlattenIndex<T>(chunks: seq<seq<T>>, k: int) returns (i: int, j: int)
    requires forall m :: 0 <= m < |chunks| ==> |chunks[m]| == 7
    requires 0 <= k < 7 * |chunks|
    ensures 0 <= i < |chunks| && 0 <= j < 7
    ensures |Flatten(chunks)| == 7 * |chunks| && Flatten(chunks)[k] == chunks[i][j]
  {
    var n := |chunks| - 1;
    var init := chunks[..n];
    FlattenAt(chunks, 0);
    FlattenAt(init, 0);
    var front := Flatten(init);
    assert Flatten(chunks) == front + chunks[n];
    if k < 7 * n {
      i, j := FlattenIndex(init, k);
      assert init[i] == chunks[i];
    } else {
      i, j := n, k - 7 * n;
    }
  }

  /** Neither the text fields of `e` nor its two formatted instants contain CRLF. */
  predicate LineSafe(toIso: Normalizer, e: Event) {
    !ContainsCrlf(e.uid) && !ContainsCrlf(e.title) && !ContainsCrlf(e.description) &&
    !ContainsCrlf(FormatICalDate(toIso, e.start)) && !ContainsCrlf(FormatICalDate(toIso, e.end))
  }

  lemma EventLinesHaveNoCrlf(toIso: Normalizer, e: Event)
    requires LineSafe(toIso, e)
    ensures forall k :: 0 <= k < 7 ==> !ContainsCrlf(EventLines(toIso, e)[k])
  {
    var lines := EventLines(toIso, e);
    NoCrNoCrlf(lines[0]);
    PrefixNoCrlf("UID:", e.uid);
    PrefixNoCrlf("SUMMARY:", e.title);
    PrefixNoCrlf("DTSTART:", FormatICalDate(toIso, e.start));
    PrefixNoCrlf("DTEND:", FormatICalDate(toIso, e.end));
    PrefixNoCrlf("DESCRIPTION:", e.description);
    NoCrNoCrlf(lines[6]);
  }

  /** No line of the blocks contains CRLF when every event is line-safe. */
  lemma BlocksHaveNoCrlf(toIso: Normalizer, events: seq<Event>)
    requires forall e :: e in events ==> LineSafe(toIso, e)
    ensures forall k :: 0 <= k < |Blocks(toIso, events)| ==> !ContainsCrlf(Blocks(toIso, events)[k])
  {
    var chunks := EventChunks(toIso, events);
    forall k | 0 <= k < |Blocks(toIso, events)|
      ensures !ContainsCrlf(Blocks(toIso, events)[k])
    {
      var i, j := FlattenIndex(chunks, k);
      assert events[i] in events;
      EventLinesHaveNoCrlf(toIso, events[i]);
    }
  }

  /** When no uid, title, description or formatted instant contains CRLF, splitting the
      document on CRLF recovers its 4 + 7n lines. */
  lemma FeedSplitsIntoLines(toIso: Normalizer, events: seq<Event>)
    requires forall e :: e in events ==> LineSafe(toIso, e)
    ensures Split(Join(FeedLines(toIso, events), Crlf)) == FeedLines(toIso, events)
  {
    var lines := FeedLines(toIso, events);
    var blocks := Blocks(toIso, events);
    BlocksHaveNoCrlf(toIso, events);
    forall k | 0 <= k < |lines|
      ensures !ContainsCrlf(lines[k])
    {
      if k < 3 {
        assert lines[k] == Header[k];
        NoCrNoCrlf(Header[k]);
      } else if k < 3 + |blocks| {
        assert lines[k] == blocks[k - 3];
      } else {
        NoCrNoCrlf(Footer);
      }
    }
    SplitJoin(lines);
  }

  lemma PrefixKeepsCrlf(prefix: string, field: string)
    requires ContainsCrlf(field)
    ensures ContainsCrlf(prefix + field)
  {
    var p :| 0 <= p < |field| - 1 && field[p] == '\r' && field[p + 1] == '\n';
    var line := prefix + field;
    assert line[|prefix| + p] == '\r' && line[|prefix| + p + 1] == '\n';
  }

  /** A field or formatted instant containing CRLF makes the split document differ from its lines. */
  lemma FeedSplitsIntoLinesOnlyIfNoCrlf(toIso: Normalizer, events: seq<Event>, i: int)
    requires 0 <= i < |events|
    requires !LineSafe(toIso, events[i])
    ensures Split(Join(FeedLines(toIso, events), Crlf)) != FeedLines(toIso, events)
  {
    var lines := FeedLines(toIso, events);
    var e := events[i];
    EventBlockInFeed(toIso, events, i);
    var k := 3 + 7 * i;
    if ContainsCrlf(e.uid) {
      PrefixKeepsCrlf("UID:", e.uid);
      assert ContainsCrlf(lines[k + 1]);
    } else if ContainsCrlf(e.title) {
      PrefixKeepsCrlf("SUMMARY:", e.title);
      assert ContainsCrlf(lines[k + 2]);
    } else if ContainsCrlf(e.description) {
      PrefixKeepsCrlf("DESCRIPTION:", e.description);
      assert ContainsCrlf(lines[k + 5]);
    } else if ContainsCrlf(FormatICalDate(toIso, e.start)) {
      PrefixKeepsCrlf("DTSTART:", FormatICalDate(toIso, e.start));
      assert ContainsCrlf(lines[k + 3]);
    } else {
      PrefixKeepsCrlf("DTEND:", FormatICalDate(toIso, e.end));
      assert ContainsCrlf(lines[k + 4]);
    }
    SplitPiecesHaveNoCrlf(Join(lines, Crlf));
  }

  /** The document splits back into its lines exactly when every event is line-safe. */
  lemma FeedSplitsIntoLinesIff(toIso: Normalizer, events: seq<Event>)
    ensures Split(Join(FeedLines(toIso, events), Crlf)) == FeedLines(toIso, events)
      <==> forall e :: e in events ==> LineSafe(toIso, e)
  {
    if forall e :: e in events ==> LineSafe(toIso, e) {
      FeedSplitsIntoLines(toIso, events);
    } else {
      var e :| e in events && !LineSafe(toIso, e);
      var i :| 0 <= i < |events| && events[i] == e;
      FeedSplitsIntoLinesOnlyIfNoCrlf(toIso, events, i);
    }
  }
}
