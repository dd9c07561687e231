/**
 Reading a published map's comment out of a GBX file (`src/nadeo.rs`): finding the
 header chunk table, choosing the byte range to fetch, and extracting the comment,
 whose length is stored once or twice.
 */
module Gbx {
  import opened Common

  type Byte = b: nat | b < 256

  function U32(buf: seq<Byte>, at: nat): nat
    requires at + 4 <= |buf|
  {
    var b0: int, b1: int, b2: int, b3: int := buf[at], buf[at + 1], buf[at + 2], buf[at + 3];
    b0 + 256 * b1 + 65536 * b2 + 16777216 * b3
  }

  function Le32(n: nat): (b: seq<Byte>)
    requires n < 0x1_0000_0000
    ensures |b| == 4
  {
    [n % 256, n / 256 % 256, n / 65536 % 256, n / 16777216]
  }

  lemma Le32ReadsBack(n: nat, buf: seq<Byte>, at: nat)
    requires n < 0x1_0000_0000 && at + 4 <= |buf| && buf[at..at + 4] == Le32(n)
    ensures U32(buf, at) == n
  {
    var b := buf[at..at + 4];
    assert buf[at] == b[0] && buf[at + 1] == b[1] && buf[at + 2] == b[2] && buf[at + 3] == b[3];
    assert n / 65536 == n / 256 / 256 && n / 16777216 == n / 65536 / 256;
  }

  // ---- the header chunk table ----

  datatype Chunk = Chunk(id: nat, rawSize: nat)

  /** The top bit of a stored size is a flag. */
  function Size(c: Chunk): nat {
    c.rawSize % 0x8000_0000
  }

  predicate EntryOk(c: Chunk) {
    c.id / 65536 == 0x0304 && Size(c) <= 0x1000_0000
  }

  /** The ids of the header chunks, from 0x03040000 to 0x0304FFFF, and 256 MiB with either value of the flag. */
  lemma EntryBounds(id: nat, size: nat)
    requires id < 0x1_0000_0000 && size < 0x8000_0000
    ensures EntryOk(Chunk(id, size)) <==> 0x0304_0000 <= id <= 0x0304_FFFF && size <= 268435456
    ensures EntryOk(Chunk(id, size + 0x8000_0000)) <==> EntryOk(Chunk(id, size))
  {
  }

  function EntryAt(head: seq<Byte>, p: nat): Chunk
    requires p + 8 <= |head|
  {
    Chunk(U32(head, p), U32(head, p + 4))
  }

  /** A count of 1 to 64 at `start`, followed inside the buffer by that many acceptable entries. */
  ghost predicate TableAt(head: seq<Byte>, start: nat) {
    && start + 4 <= |head|
    && var count := U32(head, start);
       && 1 <= count <= 64
       && start + 4 + count * 8 <= |head|
       && forall i :: 0 <= i < count ==> EntryOk(EntryAt(head, start + 4 + i * 8))
  }

  /** Starts are tried from 8 up to 12 bytes before the end. */
  function ScanEnd(head: seq<Byte>): nat {
    if |head| < 12 then 0 else |head| - 12
  }

  /** The entries of one candidate table, unless one of them is not acceptable. */
  method Entries(head: seq<Byte>, start: nat, count: nat) returns (found: Option<seq<Chunk>>)
    requires start + 4 + count * 8 <= |head|
    ensures found.Some? <==> forall i :: 0 <= i < count ==> EntryOk(EntryAt(head, start + 4 + i * 8))
    ensures found.Some? ==> |found.value| == count
    ensures found.Some? ==> forall i :: 0 <= i < count ==> found.value[i] == EntryAt(head, start + 4 + i * 8)
  {
    var entries: seq<Chunk> := [];
    var i := 0;
    while i < count
      invariant 0 <= i <= count && |entries| == i
      invariant forall j :: 0 <= j < i ==> entries[j] == EntryAt(head, start + 4 + j * 8)
      invariant forall j :: 0 <= j < i ==> EntryOk(EntryAt(head, start + 4 + j * 8))
    {
      var entry := EntryAt(head, start + 4 + i * 8);
      if entry.id / 65536 != 0x0304 || Size(entry) > 0x1000_0000 {
        return None;
      }
      entries := entries + [entry];
      i := i + 1;
    }
    return Some(entries);
  }

  /** No start before this one holds a table. */
  ghost predicate NoTableBefore(head: seq<Byte>, start: nat) {
    forall s :: 8 <= s < start ==> !TableAt(head, s)
  }

  /** The least start in range that holds a table. */
  ghost predicate FirstTable(head: seq<Byte>, start: nat) {
    8 <= start < ScanEnd(head) && TableAt(head, start) && NoTableBefore(head, start)
  }

  /** The place behind a table and the entries in it. */
  ghost predicate ReadOff(head: seq<Byte>, start: nat, end: nat, entries: seq<Chunk>)
    requires TableAt(head, start)
  {
    && |entries| == U32(head, start)
    && end == start + 4 + |entries| * 8
    && forall i :: 0 <= i < |entries| ==> entries[i] == EntryAt(head, start + 4 + i * 8)
  }

  /** `parse_header_chunk_table`: the first plausible table, its end and its entries; every read is in bounds. */
  method ParseHeaderChunkTable(head: seq<Byte>) returns (found: Option<(nat, seq<Chunk>)>)
    ensures found.None? ==> NoTableBefore(head, ScanEnd(head))
    ensures found.Some? ==>
              exists start: nat :: FirstTable(head, start) && ReadOff(head, start, found.value.0, found.value.1)
  {
    var start := 8;
    while start < ScanEnd(head)
      invariant 8 <= start
      invariant NoTableBefore(head, start)
    {
      var count := U32(head, start);
      if 1 <= count <= 64 && start + 4 + count * 8 <= |head| {
        var entries := Entries(head, start, count);
        if entries.Some? {
          assert TableAt(head, start);
          var end := start + 4 + count * 8;
          assert FirstTable(head, start) && ReadOff(head, start, end, entries.value);
          return Some((end, entries.value));
        }
      }
      assert !TableAt(head, start);
      start := start + 1;
    }
    return None;
  }

  // ---- which bytes to fetch ----

  const CHUNK_THUMB_COMMENTS: nat := 0x0304_3007
  const COMMENT_FETCH_WINDOW: nat := 65536
  const COMMENT_MAX_LEN: nat := 32768

  function SizesBefore(chunks: seq<Chunk>, k: nat): nat
    requires k <= |chunks|
  {
    if k == 0 then 0 else SizesBefore(chunks, k - 1) + Size(chunks[k - 1])
  }

  datatype Fetch = Range(start: nat, end: nat) | EmptyChunk | NoChunk

  /** The first thumbnail chunk. */
  ghost predicate FirstThumbnail(chunks: seq<Chunk>, k: nat) {
    && k < |chunks| && chunks[k].id == CHUNK_THUMB_COMMENTS
    && forall j :: 0 <= j < k ==> chunks[j].id != CHUNK_THUMB_COMMENTS
  }

  /** The tail of the thumbnail chunk: inside that chunk, ending where it ends, at most one window long. */
  method CommentRange(dataStart: nat, chunks: seq<Chunk>) returns (f: Fetch)
    ensures f.NoChunk? <==> forall j :: 0 <= j < |chunks| ==> chunks[j].id != CHUNK_THUMB_COMMENTS
    ensures forall k: nat :: FirstThumbnail(chunks, k) ==>
              var from := dataStart + SizesBefore(chunks, k);
              && (f.EmptyChunk? <==> Size(chunks[k]) == 0)
              && (f.Range? ==>
                    && from <= f.start < f.end == from + Size(chunks[k])
                    && f.end - f.start <= COMMENT_FETCH_WINDOW
                    && (f.end - f.start < COMMENT_FETCH_WINDOW ==> f.start == from))
  {
    var offset := dataStart;
    var i := 0;
    while i < |chunks|
      invariant 0 <= i <= |chunks|
      invariant offset == dataStart + SizesBefore(chunks, i)
      invariant forall j :: 0 <= j < i ==> chunks[j].id != CHUNK_THUMB_COMMENTS
    {
      var size := Size(chunks[i]);
      if chunks[i].id == CHUNK_THUMB_COMMENTS {
        assert forall k: nat :: FirstThumbnail(chunks, k) ==> k == i;
        if size == 0 {
          return EmptyChunk;
        }
        var window := if size < COMMENT_FETCH_WINDOW then size else COMMENT_FETCH_WINDOW;
        var start := offset + size - window;
        return Range(start, start + window);
      }
      offset := offset + size;
      i := i + 1;
    }
    return NoChunk;
  }

  // ---- the comment itself ----

  function OpenTag(): seq<Byte> {
    // <Comments>
    [60, 67, 111, 109, 109, 101, 110, 116, 115, 62]
  }

  function CloseTag(): seq<Byte> {
    // </Comments>
    [60, 47, 67, 111, 109, 109, 101, 110, 116, 115, 62]
  }

  predicate MatchesAt(buf: seq<Byte>, at: nat, needle: seq<Byte>) {
    at + |needle| <= |buf| && buf[at..at + |needle|] == needle
  }

  /** `find_subslice`: the first place the needle stands; an empty needle stands nowhere. */
  function Find(buf: seq<Byte>, needle: seq<Byte>, from: nat): (at: Option<nat>)
    ensures at.Some? ==> from <= at.value && MatchesAt(buf, at.value, needle)
    ensures at.Some? ==> forall i :: from <= i < at.value ==> !MatchesAt(buf, i, needle)
    ensures at.None? && needle != [] ==> forall i :: from <= i ==> !MatchesAt(buf, i, needle)
    ensures needle == [] ==> at.None?
    decreases |buf| - from
  {
    if needle == [] || from + |needle| > |buf| then None
    else if MatchesAt(buf, from, needle) then Some(from)
    else if from < |buf| then Find(buf, needle, from + 1)
    else None
  }

  predicate Continuation(b: Byte) {
    0x80 <= b <= 0xBF
  }

  /** The number of bytes of the well-formed UTF-8 sequence a text begins with, or 0. */
  function LeadLength(s: seq<Byte>): (n: nat)
    ensures n <= |s|
  {
    if |s| >= 1 && s[0] < 0x80 then 1
    else if |s| >= 2 && 0xC2 <= s[0] <= 0xDF && Continuation(s[1]) then 2
    else if |s| >= 3 && 0xE0 <= s[0] <= 0xEF && Continuation(s[1]) && Continuation(s[2])
            && (s[0] == 0xE0 ==> s[1] >= 0xA0) && (s[0] == 0xED ==> s[1] <= 0x9F) then 3
    else if |s| >= 4 && 0xF0 <= s[0] <= 0xF4 && Continuation(s[1]) && Continuation(s[2]) && Continuation(s[3])
            && (s[0] == 0xF0 ==> s[1] >= 0x90) && (s[0] == 0xF4 ==> s[1] <= 0x8F) then 4
    else 0
  }

  predicate ValidUtf8(s: seq<Byte>) {
    s == [] || (LeadLength(s) > 0 && ValidUtf8(s[LeadLength(s)..]))
  }

  datatype Extracted = Found(text: seq<Byte>) | Truncated | Missing

  /** One way to read the bytes behind the marker, `consumed` of them before the text. */
  datatype Reading = Text(text: seq<Byte>) | PastEnd | Rejected

  function Read(buf: seq<Byte>, after: nat, consumed: nat): Reading
    requires consumed >= 4
  {
    var lenAt := after + consumed - 4;
    if lenAt + 4 > |buf| then PastEnd
    else
      var len := U32(buf, lenAt) % 0x8000_0000;
      var start := after + consumed;
      if len == 0 || len > COMMENT_MAX_LEN then Rejected
      else if start + len > |buf| then PastEnd
      else if !MatchesAt(buf, start + len, CloseTag()) then Rejected
      else if ValidUtf8(buf[start..start + len]) then Text(buf[start..start + len])
      else Rejected
  }

  /** What `extract_comments` answers: the one-length reading wins over the two-length reading. */
  function Extraction(buf: seq<Byte>): Extracted {
    match Find(buf, OpenTag(), 0)
    case None => Missing
    case Some(marker) =>
      var after := marker + |OpenTag()|;
      if Read(buf, after, 4).Text? then Found(Read(buf, after, 4).text)
      else if Read(buf, after, 8).Text? then Found(Read(buf, after, 8).text)
      else if Read(buf, after, 4).PastEnd? || Read(buf, after, 8).PastEnd? then Truncated
      else Missing
  }

  method ExtractComments(buf: seq<Byte>) returns (r: Extracted)
    ensures r == Extraction(buf)
  {
    hide U32, ValidUtf8, Find, OpenTag, CloseTag, MatchesAt;
    var found := Find(buf, OpenTag(), 0);
    if found.None? {
      return Missing;
    }
    var after := found.value + |OpenTag()|;
    var truncated := false;
    var consumed := 4;
    while consumed <= 8
      invariant consumed == 4 || consumed == 8 || consumed == 12
      invariant consumed > 4 ==> !Read(buf, after, 4).Text?
      invariant consumed > 8 ==> !Read(buf, after, 8).Text?
      invariant truncated <==>
                  (consumed > 4 && Read(buf, after, 4).PastEnd?) || (consumed > 8 && Read(buf, after, 8).PastEnd?)
    {
      var lenAt := after + consumed - 4;
      if lenAt + 4 > |buf| {
        truncated := true;
      } else {
        var len := U32(buf, lenAt) % 0x8000_0000;
        if len != 0 && len <= COMMENT_MAX_LEN {
          var start := after + consumed;
          var end := start + len;
          if end > |buf| {
            truncated := true;
          } else if MatchesAt(buf, end, CloseTag()) && ValidUtf8(buf[start..end]) {
            return Found(buf[start..end]);
          }
        }
      }
      consumed := consumed + 4;
    }
    return if truncated then Truncated else Missing;
  }

  // ---- the format, written down independently ----

  predicate MarkerFree(s: seq<Byte>) {
    Find(s, OpenTag(), 0).None?
  }

  predicate Comment(text: seq<Byte>) {
    1 <= |text| <= COMMENT_MAX_LEN && ValidUtf8(text)
  }

  /** A stored length, with or without the flag bit. */
  function Length(text: seq<Byte>, flag: bool): nat {
    |text| + if flag then 0x8000_0000 else 0
  }

  /** Marker, length once or twice, text, trailer. */
  function Layout(prefix: seq<Byte>, lengths: seq<Byte>, text: seq<Byte>, suffix: seq<Byte>): seq<Byte> {
    prefix + (OpenTag() + (lengths + (text + (CloseTag() + suffix))))
  }

  lemma MatchIndex(buf: seq<Byte>, at: nat, needle: seq<Byte>, k: nat)
    requires MatchesAt(buf, at, needle) && k < |needle|
    ensures buf[at + k] == needle[k]
  {
    assert buf[at..at + |needle|][k] == buf[at + k];
  }

  /** A needle that cannot begin in a prefix it does not occur in: its first byte never comes again inside it. */
  lemma {:induction false} NoMatchBefore(prefix: seq<Byte>, buf: seq<Byte>, needle: seq<Byte>, i: nat)
    requires Find(prefix, needle, 0).None? && |needle| > 0 && forall k :: 1 <= k < |needle| ==> needle[k] != needle[0]
    requires i < |prefix| < |buf| && buf[..|prefix|] == prefix && buf[|prefix|] == needle[0]
    ensures !MatchesAt(buf, i, needle)
  {
    if i + |needle| <= |prefix| {
      assert prefix[i..i + |needle|] == buf[i..i + |needle|];
      assert !MatchesAt(prefix, i, needle);
    } else if MatchesAt(buf, i, needle) {
      MatchIndex(buf, i, needle, |prefix| - i);
    }
  }

  lemma {:induction false} FirstMatch(prefix: seq<Byte>, needle: seq<Byte>, rest: seq<Byte>)
    requires Find(prefix, needle, 0).None? && |needle| > 0 && forall k :: 1 <= k < |needle| ==> needle[k] != needle[0]
    ensures Find(prefix + (needle + rest), needle, 0) == Some(|prefix|)
  {
    var buf := prefix + (needle + rest);
    assert buf[|prefix|..|prefix| + |needle|] == needle;
    assert MatchesAt(buf, |prefix|, needle);
    assert buf[..|prefix|] == prefix;
    forall i | 0 <= i < |prefix| ensures !MatchesAt(buf, i, needle) {
      NoMatchBefore(prefix, buf, needle, i);
    }
  }

  lemma {:induction false} MarkerStandsAt(prefix: seq<Byte>, rest: seq<Byte>)
    requires MarkerFree(prefix)
    ensures Find(prefix + (OpenTag() + rest), OpenTag(), 0) == Some(|prefix|)
  {
    FirstMatch(prefix, OpenTag(), rest);
  }

  lemma PiecesRead(buf: seq<Byte>, after: nat, consumed: nat, text: seq<Byte>)
    requires consumed >= 4 && Comment(text) && after + consumed <= |buf|
    requires U32(buf, after + consumed - 4) % 0x8000_0000 == |text|
    requires MatchesAt(buf, after + consumed, text) && MatchesAt(buf, after + consumed + |text|, CloseTag())
    ensures Read(buf, after, consumed) == Text(text)
  {
    hide U32, ValidUtf8, CloseTag;
  }

  lemma PiecesStand(buf: seq<Byte>, before: seq<Byte>, length: seq<Byte>, text: seq<Byte>, close: seq<Byte>,
                    suffix: seq<Byte>)
    requires |length| == 4 && buf == before + (length + (text + (close + suffix)))
    ensures MatchesAt(buf, |before|, length)
    ensures MatchesAt(buf, |before| + 4, text)
    ensures MatchesAt(buf, |before| + 4 + |text|, close)
  {
    var rest := text + (close + suffix);
    assert buf[|before|..] == length + rest;
    assert buf[|before| + 4..] == rest;
    assert buf[|before| + 4 + |text|..] == close + suffix;
  }

  /** Reading at the right distance finds the text. */
  lemma ReadsText(buf: seq<Byte>, before: seq<Byte>, length: nat, text: seq<Byte>, suffix: seq<Byte>, after: nat,
                  consumed: nat)
    requires Comment(text) && length == Length(text, length >= 0x8000_0000) && length < 0x1_0000_0000
    requires consumed >= 4 && after + consumed == |before| + 4
    requires buf == before + (Le32(length) + (text + (CloseTag() + suffix)))
    ensures Read(buf, after, consumed) == Text(text)
  {
    hide ValidUtf8, Le32, CloseTag, Read, U32;
    PiecesStand(buf, before, Le32(length), text, CloseTag(), suffix);
    Le32ReadsBack(length, buf, |before|);
    PiecesRead(buf, after, consumed, text);
  }

  /** Two places four bytes apart cannot both hold the trailer. */
  lemma TrailersDoNotOverlap(buf: seq<Byte>, at: nat)
    requires MatchesAt(buf, at + 4, CloseTag())
    ensures !MatchesAt(buf, at, CloseTag())
  {
    MatchIndex(buf, at + 4, CloseTag(), 0);
    if MatchesAt(buf, at, CloseTag()) {
      MatchIndex(buf, at, CloseTag(), 4);
    }
  }

  /** A length written once: the text comes back. */
  lemma SingleLengthRoundTrip(prefix: seq<Byte>, text: seq<Byte>, suffix: seq<Byte>, flag: bool)
    requires MarkerFree(prefix) && Comment(text)
    ensures Extraction(Layout(prefix, Le32(Length(text, flag)), text, suffix)) == Found(text)
  {
    var n := Length(text, flag);
    var tail := Le32(n) + (text + (CloseTag() + suffix));
    var buf := Layout(prefix, Le32(n), text, suffix);
    MarkerStandsAt(prefix, tail);
    assert buf == prefix + (OpenTag() + tail);
    assert buf == (prefix + OpenTag()) + tail;
    ReadsText(buf, prefix + OpenTag(), n, text, suffix, |prefix| + |OpenTag()|, 4);
  }

  /** A reading that finds a text has the trailer behind it. */
  lemma TextHasTrailer(buf: seq<Byte>, after: nat, consumed: nat)
    requires consumed >= 4 && Read(buf, after, consumed).Text?
    ensures MatchesAt(buf, after + consumed + |Read(buf, after, consumed).text|, CloseTag())
  {
  }

  lemma NoTrailerNoText(buf: seq<Byte>, after: nat, length: nat)
    requires after + 4 <= |buf| && U32(buf, after) % 0x8000_0000 == length
    requires after + 4 + length <= |buf| && !MatchesAt(buf, after + 4 + length, CloseTag())
    ensures Read(buf, after, 4) == Rejected
  {
  }

  /** With the length doubled, the trailer is not where the one-length reading looks for it. */
  lemma OneLengthReadingFails(buf: seq<Byte>, after: nat, text: seq<Byte>, flag: bool)
    requires Comment(text) && after + 4 <= |buf| && buf[after..after + 4] == Le32(Length(text, flag))
    requires Read(buf, after, 8) == Text(text)
    ensures Read(buf, after, 4) == Rejected
  {
    hide ValidUtf8, CloseTag, U32, Le32;
    Le32ReadsBack(Length(text, flag), buf, after);
    TextHasTrailer(buf, after, 8);
    TrailersDoNotOverlap(buf, after + 4 + |text|);
    NoTrailerNoText(buf, after, |text|);
  }

  /** A length written twice: the one-length reading never matches, and the text comes back. */
  lemma DoubleLengthRoundTrip(prefix: seq<Byte>, text: seq<Byte>, suffix: seq<Byte>, flag1: bool, flag2: bool)
    requires MarkerFree(prefix) && Comment(text)
    ensures Extraction(Layout(prefix, Le32(Length(text, flag1)) + Le32(Length(text, flag2)), text, suffix)) ==
          Found(text)
  {
    var n1, n2 := Length(text, flag1), Length(text, flag2);
    var tail := Le32(n2) + (text + (CloseTag() + suffix));
    var buf := Layout(prefix, Le32(n1) + Le32(n2), text, suffix);
    var before := (prefix + OpenTag()) + Le32(n1);
    Reassociate(prefix, OpenTag(), Le32(n1), Le32(n2), text + (CloseTag() + suffix));
    MarkerStandsAt(prefix, Le32(n1) + tail);
    ReadsText(buf, before, n2, text, suffix, |prefix| + |OpenTag()|, 8);
    assert buf[|prefix| + |OpenTag()|..|prefix| + |OpenTag()| + 4] == Le32(n1);
    OneLengthReadingFails(buf, |prefix| + |OpenTag()|, text, flag1);
  }

  lemma Reassociate<T>(a: seq<T>, b: seq<T>, c: seq<T>, d: seq<T>, e: seq<T>)
    ensures a + (b + ((c + d) + e)) == ((a + b) + c) + (d + e)
    ensures a + (b + ((c + d) + e)) == a + (b + (c + (d + e)))
  {
    assert (c + d) + e == c + (d + e);
  }

  /** Marker, perhaps a first length, the length, the text and the trailer, at these places of a buffer. */
  ghost predicate LaidOut(buf: seq<Byte>, marker: nat, gap: nat, flag: bool, text: seq<Byte>) {
    && Comment(text)
    && Find(buf, OpenTag(), 0) == Some(marker)
    && (gap == 0 || gap == 4)
    && MatchesAt(buf, marker + 10 + gap, Le32(Length(text, flag)))
    && MatchesAt(buf, marker + 14 + gap, text)
    && MatchesAt(buf, marker + 14 + gap + |text|, CloseTag())
  }

  /** A reading that finds a text has read its length from the four bytes before it. */
  lemma TextHasLength(buf: seq<Byte>, after: nat, consumed: nat)
    requires consumed >= 4 && Read(buf, after, consumed).Text?
    ensures var text := Read(buf, after, consumed).text;
            var at := after + consumed - 4;
            && Comment(text)
            && MatchesAt(buf, after + consumed, text)
            && at + 4 <= |buf|
            && U32(buf, at) % 0x8000_0000 == |text|
  {
  }

  lemma ReadMeansLaidOut(buf: seq<Byte>, marker: nat, gap: nat) returns (flag: bool)
    requires Find(buf, OpenTag(), 0) == Some(marker) && (gap == 0 || gap == 4)
    requires Read(buf, marker + 10, gap + 4).Text?
    ensures LaidOut(buf, marker, gap, flag, Read(buf, marker + 10, gap + 4).text)
  {
    hide Read, U32, Le32, ValidUtf8, Find, OpenTag, CloseTag;
    var text := Read(buf, marker + 10, gap + 4).text;
    TextHasTrailer(buf, marker + 10, gap + 4);
    TextHasLength(buf, marker + 10, gap + 4);
    var raw := U32(buf, marker + 10 + gap);
    U32WritesBack(buf, marker + 10 + gap);
    flag := raw >= 0x8000_0000;
    assert Length(text, flag) == raw;
  }

  /** Conversely, a text is only ever extracted from such a layout, behind the first marker. */
  lemma ExtractedMeansLaidOut(buf: seq<Byte>)
    requires Extraction(buf).Found?
    ensures exists marker: nat, gap: nat, flag: bool :: LaidOut(buf, marker, gap, flag, Extraction(buf).text)
  {
    hide Read, U32, Le32, ValidUtf8, CloseTag, LaidOut, Find;
    var marker := Find(buf, OpenTag(), 0).value;
    if Read(buf, marker + 10, 4).Text? {
      var flag := ReadMeansLaidOut(buf, marker, 0);
    } else {
      var flag := ReadMeansLaidOut(buf, marker, 4);
    }
  }

  lemma U32WritesBack(buf: seq<Byte>, at: nat)
    requires at + 4 <= |buf|
    ensures U32(buf, at) < 0x1_0000_0000 && MatchesAt(buf, at, Le32(U32(buf, at)))
  {
    var n := U32(buf, at);
    var b0: int, b1: int, b2: int, b3: int := buf[at], buf[at + 1], buf[at + 2], buf[at + 3];
    assert n / 256 == b1 + 256 * b2 + 65536 * b3;
    assert n / 65536 == n / 256 / 256 == b2 + 256 * b3;
    assert n / 16777216 == n / 65536 / 256 == b3;
    assert buf[at..at + 4] == [buf[at], buf[at + 1], buf[at + 2], buf[at + 3]];
  }

  // ---- which texts are valid ----

  /** A Unicode scalar value. */
  type Scalar = c: nat | c < 0x11_0000 && !(0xD800 <= c < 0xE000)

  /** UTF-8 as RFC 3629 encodes one scalar value (section 3). */
  function Utf8(c: Scalar): (b: seq<Byte>)
    ensures 1 <= |b| <= 4
  {
    if c < 0x80 then [c]
    else if c < 0x800 then [0xC0 + c / 64, 0x80 + c % 64]
    else if c < 0x1_0000 then [0xE0 + c / 4096, 0x80 + c / 64 % 64, 0x80 + c % 64]
    else [0xF0 + c / 262144, 0x80 + c / 4096 % 64, 0x80 + c / 64 % 64, 0x80 + c % 64]
  }

  function Utf8All(cs: seq<Scalar>): seq<Byte> {
    if cs == [] then [] else Utf8(cs[0]) + Utf8All(cs[1..])
  }

  lemma LeadOfScalar(c: Scalar, rest: seq<Byte>)
    ensures LeadLength(Utf8(c) + rest) == |Utf8(c)|
  {
    var s := Utf8(c) + rest;
    assert forall i :: 0 <= i < |Utf8(c)| ==> s[i] == Utf8(c)[i];
    if 0x80 <= c < 0x800 {
      assert 2 <= c / 64 < 32;
    } else if 0x800 <= c < 0x1_0000 {
      ThreeBytes(c);
    } else if c >= 0x1_0000 {
      FourBytes(c);
    }
  }

  lemma ThreeBytes(c: nat)
    requires 0x800 <= c < 0x1_0000
    ensures c / 4096 < 16 && c / 64 == 64 * (c / 4096) + c / 64 % 64
    ensures c / 4096 == 0 ==> c / 64 % 64 >= 32
    ensures c / 4096 == 13 ==> (c / 64 % 64 < 32 <==> c < 0xD800)
  {
    assert c / 4096 == c / 64 / 64;
  }

  lemma FourBytes(c: nat)
    requires 0x1_0000 <= c < 0x11_0000
    ensures c / 262144 <= 4
    ensures c / 262144 == 0 ==> c / 4096 % 64 >= 16
    ensures c / 262144 == 4 ==> c / 4096 % 64 < 16
  {
    assert c / 262144 == c / 4096 / 64;
  }

  lemma TwoDigits(a: nat, b: nat) returns (c: Scalar)
    requires 2 <= a < 32 && b < 64
    ensures Utf8(c) == [0xC0 + a, 0x80 + b]
  {
    c := a * 64 + b;
    assert c / 64 == a && c % 64 == b;
  }

  lemma ThreeDigits(a: nat, b: nat, d: nat) returns (c: Scalar)
    requires a < 16 && b < 64 && d < 64 && (a == 0 ==> b >= 32) && (a == 13 ==> b < 32)
    ensures Utf8(c) == [0xE0 + a, 0x80 + b, 0x80 + d]
  {
    Digits3(a, b, d);
    c := a * 4096 + b * 64 + d;
  }

  lemma FourDigits(a: nat, b: nat, d: nat, e: nat) returns (c: Scalar)
    requires a < 5 && b < 64 && d < 64 && e < 64 && (a == 0 ==> b >= 16) && (a == 4 ==> b < 16)
    ensures Utf8(c) == [0xF0 + a, 0x80 + b, 0x80 + d, 0x80 + e]
  {
    Digits4(a, b, d, e);
    c := a * 262144 + b * 4096 + d * 64 + e;
  }

  /** The scalar value a well-formed sequence stands for. */
  lemma ScalarOfLead(s: seq<Byte>) returns (c: Scalar)
    requires LeadLength(s) > 0
    ensures s[..LeadLength(s)] == Utf8(c)
  {
    var n := LeadLength(s);
    hide Utf8;
    if n == 1 {
      c := s[0];
      OneByte(c);
    } else if n == 2 {
      c := TwoDigits(s[0] - 0xC0, s[1] - 0x80);
    } else if n == 3 {
      c := ThreeDigits(s[0] - 0xE0, s[1] - 0x80, s[2] - 0x80);
    } else {
      c := FourDigits(s[0] - 0xF0, s[1] - 0x80, s[2] - 0x80, s[3] - 0x80);
    }
  }

  lemma OneByte(c: Scalar)
    requires c < 0x80
    ensures Utf8(c) == [c]
  {
  }

  lemma Digits3(a: nat, b: nat, d: nat)
    requires b < 64 && d < 64
    ensures var c := a * 4096 + b * 64 + d; c / 4096 == a && c / 64 % 64 == b && c % 64 == d
  {
    var c := a * 4096 + b * 64 + d;
    assert c / 64 == a * 64 + b;
  }

  lemma Digits4(a: nat, b: nat, d: nat, e: nat)
    requires b < 64 && d < 64 && e < 64
    ensures var c := a * 262144 + b * 4096 + d * 64 + e;
            c / 262144 == a && c / 4096 % 64 == b && c / 64 % 64 == d && c % 64 == e
  {
    var c := a * 262144 + b * 4096 + d * 64 + e;
    assert c / 64 == a * 4096 + b * 64 + d;
    Digits3(a, b, d);
    assert c / 4096 == c / 64 / 64 && c / 262144 == c / 64 / 4096;
  }

  lemma {:induction false} EncodedIsValid(cs: seq<Scalar>)
    ensures ValidUtf8(Utf8All(cs))
  {
    if cs != [] {
      LeadOfScalar(cs[0], Utf8All(cs[1..]));
      EncodedIsValid(cs[1..]);
      assert Utf8All(cs)[|Utf8(cs[0])|..] == Utf8All(cs[1..]);
    }
  }

  lemma {:induction false} ValidIsEncoded(s: seq<Byte>) returns (cs: seq<Scalar>)
    requires ValidUtf8(s)
    ensures s == Utf8All(cs)
    decreases |s|
  {
    cs := [];
    if s != [] {
      var n := LeadLength(s);
      var c := ScalarOfLead(s);
      var rest := ValidIsEncoded(s[n..]);
      cs := [c] + rest;
      assert s == s[..n] + s[n..] && cs[1..] == rest;
    }
  }

  /** A text is accepted as UTF-8 if and only if it encodes scalar values. */
  lemma {:induction false} ValidIffEncodesScalars(s: seq<Byte>)
    ensures ValidUtf8(s) <==> exists cs :: s == Utf8All(cs)
  {
    if ValidUtf8(s) {
      var cs := ValidIsEncoded(s);
    }
    if exists cs :: s == Utf8All(cs) {
      var cs :| s == Utf8All(cs);
      EncodedIsValid(cs);
    }
  }

  /** The tags are the ASCII texts they stand for. */
  lemma TagsSpelt()
    ensures var open_, close := "<Comments>", "</Comments>";
            && |OpenTag()| == |open_| && |CloseTag()| == |close|
            && (forall i :: 0 <= i < |open_| ==> OpenTag()[i] == open_[i] as nat)
            && (forall i :: 0 <= i < |close| ==> CloseTag()[i] == close[i] as nat)
  {
  }
}
