/**
 * Reading camera hints from the first bytes of an image: the search for the APP1 segment that holds
 * Exif data (marker segments are described in section B.1.1.4 of ITU-T T.81), and the scan of that
 * segment for printable text.
 */
module ByteScan {
  import opened Wrappers

  type Byte = b: int | 0 <= b < 256

  predicate Printable(b: Byte) {
    32 <= b <= 126 || b == 9 || b == 10 || b == 13
  }

  const MIN_LENGTH := 4

  // ---------------------------------------------------------------- printable runs

  /** `[a, b)` is a stretch of printable bytes that cannot be extended inside `[from, to)`. */
  predicate MaximalRun(s: seq<Byte>, from: int, end: int, a: int, b: int)
    requires 0 <= from && end <= |s|
  {
    && from <= a < b <= end
    && (forall i :: a <= i < b ==> Printable(s[i]))
    && (a == from || !Printable(s[a - 1]))
    && (b == end || !Printable(s[b]))
  }

  datatype Span = Span(from: int, end: int)

  /** The end of the printable stretch that starts at `i`. */
  function RunEnd(s: seq<Byte>, i: int, end: int): (e: int)
    requires 0 <= i <= end <= |s|
    ensures i <= e <= end
    ensures forall k :: i <= k < e ==> Printable(s[k])
    ensures e == end || !Printable(s[e])
    decreases end - i
  {
    if i < end && Printable(s[i]) then RunEnd(s, i + 1, end) else i
  }

  /** The runs of at least four bytes, left to right. */
  function Spans(s: seq<Byte>, i: int, end: int): seq<Span>
    requires 0 <= i && end <= |s|
    decreases end - i
  {
    if i >= end then []
    else
      var e := RunEnd(s, i, end);
      if e == i then Spans(s, i + 1, end)
      else if e - i >= MIN_LENGTH then [Span(i, e)] + Spans(s, e, end)
      else Spans(s, e, end)
  }

  function Text(bytes: seq<Byte>): string {
    seq(|bytes|, i requires 0 <= i < |bytes| => bytes[i] as char)
  }

  function Texts(s: seq<Byte>, spans: seq<Span>): seq<string>
    requires forall x :: x in spans ==> 0 <= x.from <= x.end <= |s|
  {
    seq(|spans|, k requires 0 <= k < |spans| => assert spans[k] in spans; Text(s[spans[k].from..spans[k].end]))
  }

  predicate Starts(s: seq<Byte>, from: int, i: int)
    requires 0 <= from <= i <= |s|
  {
    i == from || !Printable(s[i - 1])
  }

  /** Where a printable byte stands, there is one maximal run around it. */
  lemma RunsAreDisjoint(s: seq<Byte>, from: int, end: int, a: int, b: int, c: int, d: int)
    requires 0 <= from && end <= |s| && MaximalRun(s, from, end, a, b) && MaximalRun(s, from, end, c, d)
    requires a <= c < b
    ensures a == c && b == d
  {}

  /** The spans from a boundary on are exactly the maximal runs of at least four bytes there. */
  lemma {:induction false} SpansExactly(s: seq<Byte>, from: int, i: int, end: int, a: int, b: int)
    requires 0 <= from <= i && end <= |s|
    requires i < end ==> Starts(s, from, i) || !Printable(s[i])
    ensures Span(a, b) in Spans(s, i, end) <==> MaximalRun(s, from, end, a, b) && i <= a && b - a >= MIN_LENGTH
    decreases end - i
  {
    if i < end {
      var e := RunEnd(s, i, end);
      if e == i {
        SpansExactly(s, from, i + 1, end, a, b);
      } else {
        assert MaximalRun(s, from, end, i, e);
        SpansExactly(s, from, e, end, a, b);
        if MaximalRun(s, from, end, a, b) && i <= a < e { RunsAreDisjoint(s, from, end, i, e, a, b); }
      }
    }
  }

  /** A byte that is printed: from the space to the tilde, a tab, or an end of a line. */
  predicate IsText(b: Byte) {
    ' ' as int <= b as int <= '~' as int || b as int in ['\t' as int, '\n' as int, '\r' as int]
  }

  /** From `a` up to `b` nothing but text, and no text right before or after within the range. */
  predicate TextRun(s: seq<Byte>, from: int, end: int, a: int, b: int)
    requires 0 <= from && end <= |s|
  {
    && from <= a < b <= end && (forall k :: a <= k < b ==> IsText(s[k]))
    && (a == from || !IsText(s[a - 1])) && (b == end || !IsText(s[b]))
  }

  /** The scan finds exactly the whole runs of four bytes of text or more. */
  lemma FindsTextExactly(s: seq<Byte>, from: int, end: int, a: int, b: int)
    requires 0 <= from && end <= |s|
    ensures Span(a, b) in Spans(s, from, end) <==> TextRun(s, from, end, a, b) && b - a >= 4
  {
    forall x: Byte ensures Printable(x) <==> IsText(x) {}
    SpansExactly(s, from, from, end, a, b);
  }

  /** In order inside the range, and not touching. */
  predicate Ascending(spans: seq<Span>, from: int, end: int) {
    && (forall k :: 0 <= k < |spans| ==> from <= spans[k].from < spans[k].end <= end)
    && (forall k, l :: 0 <= k < l < |spans| ==> spans[k].end < spans[l].from)
  }

  /** Spans come in order and do not touch. */
  lemma {:induction false} SpansAscend(s: seq<Byte>, i: int, end: int)
    requires 0 <= i && end <= |s|
    ensures Ascending(Spans(s, i, end), i, end)
    decreases end - i
  {
    if i < end {
      var e := RunEnd(s, i, end);
      if e == i {
        SpansAscend(s, i + 1, end);
      } else {
        SpansAscend(s, e, end);
        NothingStartsAtAnEnd(s, e, end);
        PrependAscending(Span(i, e), Spans(s, e, end), end);
      }
    }
  }

  lemma PrependAscending(first: Span, rest: seq<Span>, end: int)
    requires first.from < first.end <= end && Ascending(rest, first.end, end)
    requires forall k :: 0 <= k < |rest| ==> first.end < rest[k].from
    ensures Ascending([first] + rest, first.from, end) && Ascending(rest, first.from, end)
  {}

  lemma NothingStartsAtAnEnd(s: seq<Byte>, e: int, end: int)
    requires 0 <= e <= end <= |s| && (e == end || !Printable(s[e]))
    ensures forall k :: 0 <= k < |Spans(s, e, end)| ==> e < Spans(s, e, end)[k].from
    decreases end - e
  {
    if e < end {
      assert RunEnd(s, e, end) == e;
      SpansAscend(s, e + 1, end);
    }
  }

  lemma SpansInRange(s: seq<Byte>, i: int, end: int)
    requires 0 <= i && end <= |s|
    ensures forall x :: x in Spans(s, i, end) ==> i <= x.from <= x.end <= end
  {
    SpansAscend(s, i, end);
  }

  /** What the scan answers: the texts of the spans. */
  function PrintableStrings(s: seq<Byte>, from: int, end: int): seq<string>
    requires 0 <= from && end <= |s|
  {
    SpansInRange(s, from, end);
    Texts(s, Spans(s, from, end))
  }

  /**
   * The strings found are the texts of exactly the maximal printable runs of at least four bytes in the
   * range, in their order: every such run is found, nothing else is, and no run is found twice.
   */
  lemma FoundExactly(s: seq<Byte>, from: int, end: int)
    requires 0 <= from && end <= |s|
    ensures forall a, b :: Span(a, b) in Spans(s, from, end) <==> MaximalRun(s, from, end, a, b) && b - a >= MIN_LENGTH
    ensures Ascending(Spans(s, from, end), from, end)
    ensures |PrintableStrings(s, from, end)| == |Spans(s, from, end)|
    ensures forall k :: 0 <= k < |Spans(s, from, end)| ==>
              var x := Spans(s, from, end)[k];
              && 0 <= x.from <= x.end <= |s|
              && PrintableStrings(s, from, end)[k] == Text(s[x.from..x.end])
  {
    forall a, b ensures Span(a, b) in Spans(s, from, end) <==> MaximalRun(s, from, end, a, b) && b - a >= MIN_LENGTH {
      SpansExactly(s, from, from, end, a, b);
    }
    SpansAscend(s, from, end);
  }

  // ---------------------------------------------------------------- the scanning loop

  /** What is still to come once the loop stands at `i` with the stretch since `start` in its buffer. */
  function Remaining(s: seq<Byte>, start: int, i: int, end: int): seq<Span>
    requires 0 <= start <= i <= end <= |s|
  {
    var e := RunEnd(s, i, end);
    (if e - start >= MIN_LENGTH then [Span(start, e)] else []) + Spans(s, e, end)
  }

  lemma StretchGoesOn(s: seq<Byte>, start: int, i: int, end: int)
    requires 0 <= start <= i < end <= |s| && Printable(s[i])
    ensures Remaining(s, start, i, end) == Remaining(s, start, i + 1, end)
  {}

  lemma StretchEnds(s: seq<Byte>, start: int, i: int, end: int)
    requires 0 <= start <= i < end <= |s| && !Printable(s[i])
    ensures Remaining(s, start, i, end)
         == (if i - start >= MIN_LENGTH then [Span(start, i)] else []) + Remaining(s, i + 1, i + 1, end)
  {
    assert RunEnd(s, i, end) == i;
    assert Spans(s, i, end) == Spans(s, i + 1, end);
    WholeRemaining(s, i + 1, end);
  }

  lemma WholeRemaining(s: seq<Byte>, i: int, end: int)
    requires 0 <= i <= end <= |s|
    ensures Remaining(s, i, i, end) == Spans(s, i, end)
  {
    var e := RunEnd(s, i, end);
    if i < end && e == i {
      assert Remaining(s, i, i, end) == [] + Spans(s, i, end);
    }
  }

  predicate InBuffer(s: seq<Byte>, spans: seq<Span>) {
    forall x :: x in spans ==> 0 <= x.from <= x.end <= |s|
  }

  /** The strings found so far, the stretch in the buffer, and what is to come make up the answer. */
  ghost predicate Scanned(s: seq<Byte>, from: int, end: int, found: seq<Span>, start: int, i: int, buf: string, out: seq<string>)
    requires 0 <= from && end <= |s|
  {
    && from <= start <= i <= end && InBuffer(s, found)
    && buf == Text(s[start..i]) && out == Texts(s, found)
    && found + Remaining(s, start, i, end) == Spans(s, from, end)
  }

  lemma ScanStarts(s: seq<Byte>, from: int, end: int)
    requires 0 <= from <= end <= |s|
    ensures Scanned(s, from, end, [], from, from, "", [])
  {
    WholeRemaining(s, from, end);
  }

  lemma ScanReads(s: seq<Byte>, from: int, end: int, found: seq<Span>, start: int, i: int, buf: string, out: seq<string>)
    requires 0 <= from && end <= |s| && Scanned(s, from, end, found, start, i, buf, out) && i < end && Printable(s[i])
    ensures Scanned(s, from, end, found, start, i + 1, buf + [s[i] as char], out)
  {
    StretchGoesOn(s, start, i, end);
    assert s[start..i + 1] == s[start..i] + [s[i]];
  }

  /** At an unprintable byte the stretch is kept if it is long enough, and a new one starts after it. */
  lemma ScanCuts(s: seq<Byte>, from: int, end: int, found: seq<Span>, start: int, i: int, buf: string, out: seq<string>)
    requires 0 <= from && end <= |s| && Scanned(s, from, end, found, start, i, buf, out) && i < end && !Printable(s[i])
    ensures if |buf| >= MIN_LENGTH then Scanned(s, from, end, found + [Span(start, i)], i + 1, i + 1, "", out + [buf])
            else Scanned(s, from, end, found, i + 1, i + 1, "", out)
  {
    StretchEnds(s, start, i, end);
    if |buf| >= MIN_LENGTH {
      var more := Remaining(s, i + 1, i + 1, end);
      assert found + ([Span(start, i)] + more) == (found + [Span(start, i)]) + more;
      assert Texts(s, found + [Span(start, i)]) == Texts(s, found) + [Text(s[start..i])];
    }
  }

  lemma ScanEnds(s: seq<Byte>, from: int, end: int, found: seq<Span>, start: int, buf: string, out: seq<string>)
    requires 0 <= from && end <= |s| && Scanned(s, from, end, found, start, end, buf, out)
    ensures (if |buf| >= MIN_LENGTH then out + [buf] else out) == PrintableStrings(s, from, end)
  {
    SpansInRange(s, from, end);
    if |buf| >= MIN_LENGTH {
      assert Spans(s, from, end) == found + [Span(start, end)];
    } else {
      assert Spans(s, from, end) == found;
    }
  }

  /** One pass over the range; every byte read lies in it. */
  method SearchPrintableStrings(bytes: array<Byte>, from: nat, end: nat) returns (out: seq<string>)
    requires end <= bytes.Length
    ensures out == PrintableStrings(bytes[..], from, end)
  {
    out := [];
    if from >= end { return; }
    var buf: string := "";
    ghost var s, found, start := bytes[..], [], from as int;
    ScanStarts(s, from, end);
    for i := from to end
      invariant Scanned(s, from, end, found, start, i, buf, out)
    {
      var b := bytes[i];
      if Printable(b) {
        ScanReads(s, from, end, found, start, i, buf, out);
        buf := buf + [b as char];
      } else {
        ScanCuts(s, from, end, found, start, i, buf, out);
        if |buf| >= MIN_LENGTH {
          found := found + [Span(start, i)];
          out := out + [buf];
        }
        buf := "";
        start := i + 1;
      }
    }
    ScanEnds(s, from, end, found, start, buf, out);
    if |buf| >= MIN_LENGTH { out := out + [buf]; }
  }

  // ---------------------------------------------------------------- the Exif segment

  datatype Field = Make | Model | Software | DateTimeOriginal

  datatype Exif = Exif(make: Option<string>, model: Option<string>, software: Option<string>, dateTimeOriginal: Option<string>)

  function FallbackIndex(f: Field): nat {
    match f
    case Make => 0
    case Model => 1
    case Software => 2
    case DateTimeOriginal => 3
  }

  function Clip(s: string): string {
    if |s| > 60 then s[..60] else s
  }

  /** The first string that matches, else the one at the fallback index, cut to sixty characters. */
  predicate Picks(strings: seq<string>, matches: string -> bool, fallback: nat, r: Option<string>) {
    || (exists k :: 0 <= k < |strings| && matches(strings[k]) && (forall j :: 0 <= j < k ==> !matches(strings[j]))
          && r == Some(Clip(strings[k])))
    || ((forall k :: 0 <= k < |strings| ==> !matches(strings[k]))
        && r == if fallback < |strings| then Some(Clip(strings[fallback])) else None)
  }

  /** The first sixty characters, or all there are. */
  lemma ClipsAtSixty(s: string)
    ensures Clip(s) <= s && |Clip(s)| == if |s| < 60 then |s| else 60
  {}

  method PickByPrefix(strings: seq<string>, matches: string -> bool, fallback: nat) returns (r: Option<string>)
    ensures Picks(strings, matches, fallback, r)
    ensures r.Some? ==> |r.value| <= 60 && exists k :: 0 <= k < |strings| && r.value <= strings[k]
  {
    for k := 0 to |strings|
      invariant forall j :: 0 <= j < k ==> !matches(strings[j])
    {
      if matches(strings[k]) {
        return Some(Clip(strings[k]));
      }
    }
    return if fallback < |strings| then Some(Clip(strings[fallback])) else None;
  }

  /** An APP1 marker at `i`, followed by a length and the letters of the Exif signature. */
  predicate ExifMarkerAt(s: seq<Byte>, i: int) {
    && 0 <= i && i + 10 < |s|
    && s[i] == 0xFF && s[i + 1] == 0xE1
    && s[i + 4] == 'E' as int && s[i + 5] == 'x' as int && s[i + 6] == 'i' as int && s[i + 7] == 'f' as int
  }

  function Min(a: int, b: int): int {
    if a < b then a else b
  }

  /** The searched part: after the start-of-image marker, at most the first 512 bytes. */
  function SearchEnd(length: int): int {
    Min(length - 8, 512)
  }

  predicate StartsAsImage(s: seq<Byte>) {
    |s| >= 20 && s[0] == 0xFF && s[1] == 0xD8
  }

  /** The end of the segment at `i` by its own length field, or of the buffer if that comes first. */
  function SegmentEnd(s: seq<Byte>, i: int): int
    requires ExifMarkerAt(s, i)
  {
    Min(|s|, i + 2 + ((s[i + 2] as int) * 256 + s[i + 3] as int))
  }

  predicate FirstMarker(s: seq<Byte>, i: int) {
    2 <= i < 512 && i < |s| - 8 && ExifMarkerAt(s, i) && forall j :: 2 <= j < i ==> !ExifMarkerAt(s, j)
  }

  predicate NoMarker(s: seq<Byte>) {
    forall j :: 2 <= j < 512 && j < |s| - 8 ==> !ExifMarkerAt(s, j)
  }

  predicate ReadFrom(s: seq<Byte>, i: int, matches: Field -> string -> bool, r: Exif)
    requires ExifMarkerAt(s, i)
  {
    PicksAll(PrintableStrings(s, i + 8, SegmentEnd(s, i)), matches, r)
  }

  /**
   * Reads only inside the buffer, whatever its bytes. The answer is empty exactly for a buffer that is
   * too short, does not start as an image, or has no Exif marker in its searched part; otherwise every
   * field is picked from the printable text of the first marked segment.
   */
  method ParseMinimalExif(buf: Option<array<Byte>>, matches: Field -> string -> bool) returns (r: Option<Exif>)
    ensures r.None? <==> buf.None? || !StartsAsImage(buf.value[..]) || NoMarker(buf.value[..])
    ensures r.Some? ==> exists i :: FirstMarker(buf.value[..], i) && ReadFrom(buf.value[..], i, matches, r.value)
  {
    if buf.None? || buf.value.Length < 20 { return None; }
    var bytes := buf.value;
    if bytes[0] != 0xFF || bytes[1] != 0xD8 { return None; }
    for i := 2 to SearchEnd(bytes.Length)
      invariant forall j :: 2 <= j < i ==> !ExifMarkerAt(bytes[..], j)
    {
      if bytes[i] == 0xFF && bytes[i + 1] == 0xE1 && i + 10 < bytes.Length {
        if HasSignature(bytes, i) {
          var exif := ReadSegment(bytes, i, matches);
          assert FirstMarker(bytes[..], i);
          return Some(exif);
        }
      }
    }
    return None;
  }

  /** The four bytes after the length field spell the signature. */
  predicate HasSignature(bytes: array<Byte>, i: nat)
    requires i + 10 < bytes.Length
    reads bytes
  {
    && bytes[i + 4] == 'E' as int && bytes[i + 5] == 'x' as int && bytes[i + 6] == 'i' as int && bytes[i + 7] == 'f' as int
  }

  method ReadSegment(bytes: array<Byte>, i: nat, matches: Field -> string -> bool) returns (r: Exif)
    requires ExifMarkerAt(bytes[..], i)
    ensures ReadFrom(bytes[..], i, matches, r)
  {
    ghost var s := bytes[..];
    var segLen := (bytes[i + 2] as int) * 256 + bytes[i + 3] as int;
    assert Min(bytes.Length, i + 2 + segLen) == SegmentEnd(s, i);
    var strings := SearchPrintableStrings(bytes, i + 8, Min(bytes.Length, i + 2 + segLen));
    assert strings == PrintableStrings(s, i + 8, SegmentEnd(s, i));
    r := PickFields(strings, matches);
  }

  /** One pick for each of the four fields. */
  predicate PicksAll(strings: seq<string>, matches: Field -> string -> bool, r: Exif) {
    && Picks(strings, matches(Make), 0, r.make) && Picks(strings, matches(Model), 1, r.model)
    && Picks(strings, matches(Software), 2, r.software) && Picks(strings, matches(DateTimeOriginal), 3, r.dateTimeOriginal)
  }

  method PickFields(strings: seq<string>, matches: Field -> string -> bool) returns (r: Exif)
    ensures PicksAll(strings, matches, r)
  {
    var make := PickByPrefix(strings, matches(Make), FallbackIndex(Make));
    var model := PickByPrefix(strings, matches(Model), FallbackIndex(Model));
    var software := PickByPrefix(strings, matches(Software), FallbackIndex(Software));
    var date := PickByPrefix(strings, matches(DateTimeOriginal), FallbackIndex(DateTimeOriginal));
    r := Exif(make, model, software, date);
  }
}
