/** `formatICalDate` (main.tsx:103-107): an ISO-8601 UTC instant as produced by
    `toISOString` becomes the UTC DATE-TIME form of section 3.3.5 of RFC 5545. */
module ICalDate {
  import opened FeedTypes

  predicate IsDigit(c: char) {
    '0' <= c <= '9'
  }

  /** Positions of `YYYY-MM-DDTHH:MM:SS.sssZ` that hold a digit. */
  predicate IsoDigitAt(i: int) {
    0 <= i < 23 && i != 4 && i != 7 && i != 10 && i != 13 && i != 16 && i != 19
  }

  /** What `toISOString` produces for the years 0000 to 9999: `YYYY-MM-DDTHH:MM:SS.sssZ`. */
  predicate IsCanonicalInstant(s: string) {
    |s| == 24 &&
    s[4] == '-' && s[7] == '-' && s[10] == 'T' && s[13] == ':' && s[16] == ':' && s[19] == '.' && s[23] == 'Z' &&
    forall i :: 0 <= i < 23 && IsoDigitAt(i) ==> IsDigit(s[i])
  }

  /** `YYYYMMDDTHHMMSSZ`: a DATE-TIME in UTC. */
  predicate IsICalUtcDateTime(s: string) {
    |s| == 16 && s[8] == 'T' && s[15] == 'Z' &&
    forall i :: 0 <= i < 15 && i != 8 ==> IsDigit(s[i])
  }

  /** The normaliser always yields a canonical instant. */
  ghost predicate NormalizesToCanonical(toIso: Normalizer) {
    forall s :: IsCanonicalInstant(toIso(s))
  }

  /** Normalising a canonical instant leaves it as it is. */
  ghost predicate FixesCanonical(toIso: Normalizer) {
    forall c :: IsCanonicalInstant(c) ==> toIso(c) == c
  }

  predicate IsSeparator(c: char) {
    c == '-' || c == ':'
  }

  /** `s.replace(/[-:]/g, "")`: every `-` and `:` deleted, all else kept in order. */
  function Strip(s: string): (r: string)
    ensures |r| <= |s|
    ensures '-' !in r && ':' !in r
  {
    if s == [] then []
    else (if IsSeparator(s[0]) then [] else [s[0]]) + Strip(s[1..])
  }

  /** `s.split(".")[0]`: the longest prefix of `s` without a `.`. */
  function BeforeDot(s: string): (r: string)
    ensures r <= s && '.' !in r
    ensures forall c :: c in r ==> c in s
    ensures |r| < |s| ==> s[|r|] == '.'
  {
    if s == [] || s[0] == '.' then [] else [s[0]] + BeforeDot(s[1..])
  }

  /** The string expression of main.tsx:106 applied to an instant `iso`. */
  function Compact(iso: string): (r: string)
    ensures |r| >= 1 && r[|r| - 1] == 'Z'
    ensures '-' !in r && ':' !in r && '.' !in r
    ensures forall c :: c in r ==> c in iso || c == 'Z'
  {
    StripChars(iso);
    BeforeDot(Strip(iso)) + "Z"
  }

  /** `formatICalDate`: nothing for a missing or empty input, else the compacted instant. */
  function FormatICalDate(toIso: Normalizer, d: Option<string>): (r: string)
    ensures r == "" <==> !Truthy(d)
    ensures r != "" ==> r[|r| - 1] == 'Z' && '-' !in r && ':' !in r
  {
    if !Truthy(d) then "" else Compact(toIso(d.value))
  }

  /** Stripping keeps exactly the characters other than `-` and `:`. */
  lemma {:induction false} StripChars(s: string)
    ensures forall c :: c in Strip(s) <==> c in s && !IsSeparator(c)
  {
    if s != [] {
      StripChars(s[1..]);
      assert s == [s[0]] + s[1..];
    }
  }

  lemma {:induction false} StripAppend(a: string, b: string)
    ensures Strip(a + b) == Strip(a) + Strip(b)
  {
    if a == [] {
      assert a + b == b;
    } else {
      var ab := a + b;
      var keep := if IsSeparator(a[0]) then [] else [a[0]];
      assert ab[0] == a[0] && ab[1..] == a[1..] + b;
      assert Strip(ab) == keep + Strip(a[1..] + b);
      StripAppend(a[1..], b);
      assert Strip(a) == keep + Strip(a[1..]);
    }
  }

  lemma {:induction false} StripKeeps(s: string)
    requires forall i :: 0 <= i < |s| ==> !IsSeparator(s[i])
    ensures Strip(s) == s
  {
    if s != [] {
      StripKeeps(s[1..]);
    }
  }

  lemma {:induction false} BeforeDotAppend(a: string, b: string)
    requires '.' !in a
    ensures BeforeDot(a + b) == a + BeforeDot(b)
  {
    if a == [] {
      assert a + b == b;
    } else {
      assert (a + b)[1..] == a[1..] + b;
      BeforeDotAppend(a[1..], b);
    }
  }

  lemma StripSplit(s: string, j: int)
    requires 0 <= j <= |s|
    ensures Strip(s) == Strip(s[..j]) + Strip(s[j..])
  {
    assert s == s[..j] + s[j..];
    StripAppend(s[..j], s[j..]);
  }

  /** Extending a prefix by a separator leaves its stripped form as it was. */
  lemma StripSkipsSeparator(s: string, j: int)
    requires 0 <= j < |s| && IsSeparator(s[j])
    ensures Strip(s[..j + 1]) == Strip(s[..j])
  {
    StripSplit(s[..j + 1], j);
    assert s[..j + 1][..j] == s[..j];
    assert s[..j + 1][j..] == [s[j]];
  }

  /** Extending a prefix by a run without separators appends that run. */
  lemma StripKeepsRun(s: string, i: int, j: int)
    requires 0 <= i <= j <= |s|
    requires forall k :: i <= k < j ==> !IsSeparator(s[k])
    ensures Strip(s[..j]) == Strip(s[..i]) + s[i..j]
  {
    StripSplit(s[..j], i);
    assert s[..j][..i] == s[..i];
    assert s[..j][i..] == s[i..j];
    StripKeeps(s[i..j]);
  }

  /** A run without separators followed by one separator adds just the run. */
  lemma StripRunThenSeparator(s: string, i: int, j: int)
    requires 0 <= i <= j < |s| && IsSeparator(s[j])
    requires forall k :: i <= k < j ==> !IsSeparator(s[k])
    ensures Strip(s[..j + 1]) == Strip(s[..i]) + s[i..j]
  {
    StripKeepsRun(s, i, j);
    StripSkipsSeparator(s, j);
  }

  lemma CanonicalStrip(c: string)
    requires IsCanonicalInstant(c)
    ensures Strip(c) == c[..4] + c[5..7] + c[8..13] + c[14..16] + c[17..]
  {
    assert c[..0] == [];
    StripRunThenSeparator(c, 0, 4);
    StripRunThenSeparator(c, 5, 7);
    StripRunThenSeparator(c, 8, 13);
    StripRunThenSeparator(c, 14, 16);
    StripKeepsRun(c, 17, 24);
    assert c[..24] == c && c[17..24] == c[17..];
  }

  lemma CanonicalCompactPieces(c: string)
    requires IsCanonicalInstant(c)
    ensures Compact(c) == c[..4] + c[5..7] + c[8..13] + c[14..16] + c[17..19] + "Z"
  {
    CanonicalStrip(c);
    var head := c[..4] + c[5..7] + c[8..13] + c[14..16];
    assert forall k :: 0 <= k < |head| ==> head[k] != '.';
    BeforeDotAppend(head, c[17..]);
    assert c[17..] == c[17..19] + c[19..];
    assert c[17..19][0] != '.' && c[17..19][1] != '.';
    BeforeDotAppend(c[17..19], c[19..]);
  }

  /** A canonical instant loses its separators and its milliseconds, and nothing else:
      `YYYY-MM-DDTHH:MM:SS.sssZ` becomes `YYYYMMDDTHHMMSSZ`. */
  lemma CanonicalCompact(c: string)
    requires IsCanonicalInstant(c)
    ensures Compact(c) ==
      [c[0], c[1], c[2], c[3], c[5], c[6], c[8], c[9], 'T', c[11], c[12], c[14], c[15], c[17], c[18], 'Z']
    ensures IsICalUtcDateTime(Compact(c))
  {
    CanonicalCompactPieces(c);
    var r := Compact(c);
    var d := [c[0], c[1], c[2], c[3], c[5], c[6], c[8], c[9], 'T', c[11], c[12], c[14], c[15], c[17], c[18], 'Z'];
    forall i | 0 <= i < 16
      ensures r[i] == d[i]
    {
      if i < 4 {
        assert r[i] == c[i];
      } else if i < 6 {
        assert r[i] == c[i + 1];
      } else if i < 11 {
        assert r[i] == c[i + 2];
      } else if i < 13 {
        assert r[i] == c[i + 3];
      } else if i < 15 {
        assert r[i] == c[i + 4];
      }
    }
    assert r == d;
    assert IsoDigitAt(0) && IsoDigitAt(1) && IsoDigitAt(2) && IsoDigitAt(3) && IsoDigitAt(5) && IsoDigitAt(6);
    assert IsoDigitAt(8) && IsoDigitAt(9) && IsoDigitAt(11) && IsoDigitAt(12);
    assert IsoDigitAt(14) && IsoDigitAt(15) && IsoDigitAt(17) && IsoDigitAt(18);
  }

  /** Two canonical instants compact to the same value exactly when they differ at most in milliseconds. */
  lemma CompactDropsOnlyMillis(a: string, b: string)
    requires IsCanonicalInstant(a) && IsCanonicalInstant(b)
    ensures Compact(a) == Compact(b) <==> a[..19] == b[..19]
  {
    CanonicalCompact(a);
    CanonicalCompact(b);
    var ra, rb := Compact(a), Compact(b);
    if ra == rb {
      assert ra[0] == rb[0] && ra[1] == rb[1] && ra[2] == rb[2] && ra[3] == rb[3];
      assert ra[4] == rb[4] && ra[5] == rb[5] && ra[6] == rb[6] && ra[7] == rb[7];
      assert ra[9] == rb[9] && ra[10] == rb[10] && ra[11] == rb[11] && ra[12] == rb[12];
      assert ra[13] == rb[13] && ra[14] == rb[14];
      assert forall i :: 0 <= i < 19 ==> a[i] == b[i];
    }
  }

  /** The worked example: 2025-01-01T10:00:00.000Z is written 20250101T100000Z. */
  lemma CompactExample(c: string)
    requires c == "2025-01-01T10:00:00.000Z"
    ensures Compact(c) == "20250101T100000Z"
  {
    assert forall i :: 0 <= i < 23 && IsoDigitAt(i) ==> IsDigit(c[i]);
    CanonicalCompact(c);
  }

  /** For a normaliser that fixes canonical instants, a canonical input is compacted as it is. */
  lemma FormatCanonical(toIso: Normalizer, c: string)
    requires FixesCanonical(toIso) && IsCanonicalInstant(c)
    ensures FormatICalDate(toIso, Some(c)) == Compact(c)
    ensures IsICalUtcDateTime(FormatICalDate(toIso, Some(c)))
  {
    CanonicalCompact(c);
  }

  /** With a normaliser that yields canonical instants, every present non-empty value is
      formatted as a UTC DATE-TIME. */
  lemma FormatNormalized(toIso: Normalizer, x: string)
    requires NormalizesToCanonical(toIso) && x != ""
    ensures IsICalUtcDateTime(FormatICalDate(toIso, Some(x)))
  {
    var c := toIso(x);
    assert IsCanonicalInstant(c);
    assert FormatICalDate(toIso, Some(x)) == Compact(c);
    CanonicalCompact(c);
  }
}
