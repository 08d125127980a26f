/** Duration of an Opus file: a resynchronising walk over the pages of an Ogg stream (page format of
    section 6 of RFC 3533), keeping the largest granule position. */
module OggWalker {

  import opened Wrappers

  const CAPTURE: seq<byte> := [0x4F, 0x67, 0x67, 0x53] // "OggS"
  const HEADER_SIZE := 27
  const SAMPLE_RATE := 48000.0
  const TWO_TO_63 := 0x8000_0000_0000_0000
  const TWO_TO_64 := 0x1_0000_0000_0000_0000

  // ----- integers in bytes -----

  function Value(bytes: seq<byte>): nat {
    if bytes == [] then 0 else bytes[0] + 256 * Value(bytes[1..])
  }

  function LittleEndian(n: nat, size: nat): (bytes: seq<byte>)
    ensures |bytes| == size
  {
    if size == 0 then [] else [n % 256] + LittleEndian(n / 256, size - 1)
  }

  function Pow256(k: nat): nat {
    if k == 0 then 1 else 256 * Pow256(k - 1)
  }

  lemma {:induction false} LittleEndianValue(n: nat, size: nat)
    requires n < Pow256(size)
    ensures Value(LittleEndian(n, size)) == n
  {
    if size > 0 {
      LittleEndianValue(n / 256, size - 1);
      assert LittleEndian(n, size)[1..] == LittleEndian(n / 256, size - 1);
    }
  }

  /** int64(x) of an unsigned 64-bit value, and back. */
  function Signed(u: nat): int {
    if u >= TWO_TO_63 then u - TWO_TO_64 else u
  }

  function Unsigned(g: int): nat
    requires -TWO_TO_63 <= g < TWO_TO_63
  {
    if g < 0 then g + TWO_TO_64 else g
  }

  lemma GranuleRoundTrip(g: int)
    requires -TWO_TO_63 <= g < TWO_TO_63
    ensures Signed(Value(LittleEndian(Unsigned(g), 8))) == g
  {
    assert Pow256(8) == 256 * (256 * (256 * (256 * (256 * (256 * (256 * 256)))))) by {
      assert Pow256(1) == 256 && Pow256(2) == 256 * Pow256(1) && Pow256(3) == 256 * Pow256(2);
      assert Pow256(4) == 256 * Pow256(3) && Pow256(5) == 256 * Pow256(4);
    }
    LittleEndianValue(Unsigned(g), 8);
  }

  function Sum(bytes: seq<byte>): nat {
    if bytes == [] then 0 else Sum(bytes[..|bytes| - 1]) + bytes[|bytes| - 1]
  }

  function Max(a: int, b: int): int {
    if b > a then b else a
  }

  // ----- the walk -----

  predicate CaptureAt(data: seq<byte>, pos: nat)
    requires pos + 4 <= |data|
  {
    data[pos..pos + 4] == CAPTURE
  }

  function GranuleAt(data: seq<byte>, pos: nat): int
    requires pos + HEADER_SIZE <= |data|
  {
    Signed(Value(data[pos + 6..pos + 14]))
  }

  /** Where the segment table of the page at `pos` ends. */
  function BodyAt(data: seq<byte>, pos: nat): (body: nat)
    requires pos + HEADER_SIZE <= |data|
    ensures pos + HEADER_SIZE <= body
  {
    pos + HEADER_SIZE + data[pos + 26]
  }

  /** Where the page at `pos` ends; that may lie beyond the file. */
  function NextAt(data: seq<byte>, pos: nat): (next: nat)
    requires pos + HEADER_SIZE <= |data| && BodyAt(data, pos) <= |data|
    ensures pos + HEADER_SIZE <= next
  {
    BodyAt(data, pos) + Sum(data[pos + HEADER_SIZE..BodyAt(data, pos)])
  }

  /** The page starts visited from `pos` on, and the largest granule position, `total` included. */
  function Walk(data: seq<byte>, pos: nat, total: int): (seq<nat>, int)
    decreases |data| - pos
  {
    if pos + HEADER_SIZE > |data| then ([], total)
    else if !CaptureAt(data, pos) then Walk(data, pos + 1, total)
    else
      var best := Max(total, GranuleAt(data, pos));
      if BodyAt(data, pos) > |data| then ([pos], best)
      else
        var rest := Walk(data, NextAt(data, pos), best);
        ([pos] + rest.0, rest.1)
  }

  lemma WalkStep(data: seq<byte>, pos: nat, total: int)
    ensures pos + HEADER_SIZE > |data| ==> Walk(data, pos, total) == ([], total)
    ensures pos + HEADER_SIZE <= |data| ==>
              var best := Max(total, GranuleAt(data, pos));
              && (!CaptureAt(data, pos) ==> Walk(data, pos, total) == Walk(data, pos + 1, total))
              && (CaptureAt(data, pos) && BodyAt(data, pos) > |data| ==> Walk(data, pos, total) == ([pos], best))
              && (CaptureAt(data, pos) && BodyAt(data, pos) <= |data| ==>
                    var rest := Walk(data, NextAt(data, pos), best); Walk(data, pos, total) == ([pos] + rest.0, rest.1))
  {
    hide Value, Sum, Signed;
  }

  /** getOpusDuration on a file with the given bytes; reading ends for every input. */
  method GetOpusDuration(data: seq<byte>) returns (duration: real, visited: seq<nat>)
    ensures duration == Walk(data, 0, 0).1 as real / 48000.0
    ensures visited == Walk(data, 0, 0).0
  {
    hide Value, Sum, Signed, Walk;
    var cursor := 0;
    var totalGranulePos := 0;
    visited := [];
    while true
      invariant visited + Walk(data, cursor, totalGranulePos).0 == Walk(data, 0, 0).0
      invariant Walk(data, cursor, totalGranulePos).1 == Walk(data, 0, 0).1
      decreases |data| - cursor
    {
      WalkStep(data, cursor, totalGranulePos);
      if cursor >= |data| {
        break; // io.EOF
      }
      var n := if cursor + HEADER_SIZE <= |data| then HEADER_SIZE else |data| - cursor;
      var buf := data[cursor..cursor + n];
      if n < HEADER_SIZE {
        break;
      }
      var pos := cursor;
      cursor := cursor + n;
      SliceOfSlice(data, pos, HEADER_SIZE, 0, 4);
      SliceOfSlice(data, pos, HEADER_SIZE, 6, 14);
      if buf[0..4] != CAPTURE {
        cursor := cursor - 26;
        continue;
      }
      visited := visited + [pos];
      var granulePos := Signed(Value(buf[6..14]));
      if granulePos > totalGranulePos {
        totalGranulePos := granulePos;
      }
      var numSegments: nat := buf[26];
      if cursor + numSegments > |data| {
        cursor := |data|;
        break;
      }
      var pageSize := PageSize(data[cursor..cursor + numSegments]);
      cursor := cursor + numSegments;
      cursor := cursor + pageSize;
    }
    duration := totalGranulePos as real / SAMPLE_RATE;
  }

  lemma SliceOfSlice<T>(s: seq<T>, at: nat, n: nat, i: nat, j: nat)
    requires i <= j <= n && at + n <= |s|
    ensures s[at..at + n][i..j] == s[at + i..at + j]
  {
    var part := s[at..at + n];
    assert forall k :: i <= k < j ==> part[k] == s[at + k];
    assert forall k :: 0 <= k < j - i ==> part[i..j][k] == part[i + k] == s[at + i..at + j][k];
  }

  method PageSize(segmentTable: seq<byte>) returns (pageSize: nat)
    ensures pageSize == Sum(segmentTable)
  {
    pageSize := 0;
    for i := 0 to |segmentTable|
      invariant pageSize == Sum(segmentTable[..i])
    {
      assert segmentTable[..i + 1][..i] == segmentTable[..i];
      pageSize := pageSize + segmentTable[i];
    }
    assert segmentTable[..|segmentTable|] == segmentTable;
  }

  /** What a walk reports: pages that lie apart, each at a capture pattern, and the largest granule
      position among them and `total`. */
  ghost predicate Reports(data: seq<byte>, pos: nat, total: int, starts: seq<nat>, best: int) {
    && (forall i :: 0 <= i < |starts| ==>
          pos <= starts[i] && starts[i] + HEADER_SIZE <= |data| && CaptureAt(data, starts[i]))
    && (forall i, j :: 0 <= i < j < |starts| ==> starts[i] + HEADER_SIZE <= starts[j])
    && total <= best && (forall i :: 0 <= i < |starts| ==> GranuleAt(data, starts[i]) <= best)
    && (best == total || exists i :: 0 <= i < |starts| && GranuleAt(data, starts[i]) == best)
  }

  lemma ReportsPage(data: seq<byte>, pos: nat, total: int, next: nat, starts: seq<nat>, best: int)
    requires pos + HEADER_SIZE <= |data| && CaptureAt(data, pos) && pos + HEADER_SIZE <= next
    requires Reports(data, next, Max(total, GranuleAt(data, pos)), starts, best)
    ensures Reports(data, pos, total, [pos] + starts, best)
  {
    var all := [pos] + starts;
    if i :| 0 <= i < |starts| && GranuleAt(data, starts[i]) == best {
      assert GranuleAt(data, all[i + 1]) == best;
    } else {
      assert best == total || GranuleAt(data, all[0]) == best;
    }
  }

  /** On every byte string the pages visited lie apart, each begins with the capture pattern, and the
      result is the largest granule position among them, or 0. */
  lemma {:induction false} WalkReports(data: seq<byte>, pos: nat, total: int)
    ensures Reports(data, pos, total, Walk(data, pos, total).0, Walk(data, pos, total).1)
    decreases |data| - pos
  {
    if pos + HEADER_SIZE <= |data| {
      if !CaptureAt(data, pos) {
        WalkReports(data, pos + 1, total);
      } else {
        hide Reports;
        var best := Max(total, GranuleAt(data, pos));
        if BodyAt(data, pos) > |data| {
          ReportsNothing(data, pos + HEADER_SIZE, best);
          ReportsPage(data, pos, total, pos + HEADER_SIZE, [], best);
          assert [pos] + [] == [pos];
        } else {
          WalkReports(data, NextAt(data, pos), best);
          var rest := Walk(data, NextAt(data, pos), best);
          ReportsPage(data, pos, total, NextAt(data, pos), rest.0, rest.1);
        }
      }
    }
  }

  lemma ReportsNothing(data: seq<byte>, pos: nat, total: int)
    ensures Reports(data, pos, total, [], total)
  {
  }

  // ----- well-formed streams -----

  datatype Page = Page(version: byte, headerType: byte, granule: int, serial: seq<byte>, sequence: seq<byte>,
                       checksum: seq<byte>, lacing: seq<byte>, payload: seq<byte>)
  {
    ghost predicate Valid() {
      && -TWO_TO_63 <= granule < TWO_TO_63
      && |serial| == |sequence| == |checksum| == 4
      && |lacing| < 256 && |payload| == Sum(lacing)
    }

    function Encode(): seq<byte>
      requires Valid()
    {
      CAPTURE + [version, headerType] + LittleEndian(Unsigned(granule), 8) + serial + sequence + checksum
      + [|lacing|] + lacing + payload
    }
  }

  ghost predicate AllValid(pages: seq<Page>) {
    forall i :: 0 <= i < |pages| ==> pages[i].Valid()
  }

  function Stream(pages: seq<Page>): seq<byte>
    requires AllValid(pages)
  {
    if pages == [] then [] else pages[0].Encode() + Stream(pages[1..])
  }

  function PageStarts(pages: seq<Page>, at: nat): seq<nat>
    requires AllValid(pages)
  {
    if pages == [] then [] else [at] + PageStarts(pages[1..], at + |pages[0].Encode()|)
  }

  function LargestGranule(pages: seq<Page>, least: int): int {
    if pages == [] then least else LargestGranule(pages[1..], Max(least, pages[0].granule))
  }

  /** What the walk reads at an encoded page is what was encoded. */
  lemma ReadPage(before: seq<byte>, page: Page, after: seq<byte>)
    requires page.Valid()
    ensures var data, pos := before + page.Encode() + after, |before|;
            && pos + HEADER_SIZE <= |data| && CaptureAt(data, pos)
            && GranuleAt(data, pos) == page.granule
            && BodyAt(data, pos) <= |data|
            && NextAt(data, pos) == |before + page.Encode()|
  {
    var data, pos := before + page.Encode() + after, |before|;
    assert data[pos..pos + 4] == CAPTURE;
    assert data[pos + 6..pos + 14] == LittleEndian(Unsigned(page.granule), 8);
    assert data[pos + 26] == |page.lacing|;
    assert data[pos + HEADER_SIZE..pos + HEADER_SIZE + |page.lacing|] == page.lacing;
    GranuleRoundTrip(page.granule);
  }

  lemma StreamLength(pages: seq<Page>)
    requires AllValid(pages)
    ensures pages != [] ==> |Stream(pages)| >= HEADER_SIZE
  {
    if pages != [] {
      ReadPage([], pages[0], []);
    }
  }

  lemma WalkPage(before: seq<byte>, page: Page, after: seq<byte>, total: int)
    requires page.Valid()
    ensures var data := before + page.Encode() + after;
            var rest := Walk(data, |before + page.Encode()|, Max(total, page.granule));
            Walk(data, |before|, total) == ([|before|] + rest.0, rest.1)
  {
    hide CaptureAt, GranuleAt, BodyAt, NextAt;
    ReadPage(before, page, after);
  }

  lemma WalkEnd(data: seq<byte>, total: int)
    ensures Walk(data, |data|, total) == ([], total)
  {
  }

  lemma StreamStep(before: seq<byte>, pages: seq<Page>)
    requires AllValid(pages) && pages != []
    ensures before + Stream(pages) == before + pages[0].Encode() + Stream(pages[1..])
  {
    hide Page.Encode;
  }

  lemma {:induction false} WalkStream(before: seq<byte>, pages: seq<Page>, total: int)
    requires AllValid(pages)
    ensures Walk(before + Stream(pages), |before|, total) ==
            (PageStarts(pages, |before|), LargestGranule(pages, total))
    decreases pages
  {
    hide Walk, Page.Encode;
    if pages == [] {
      assert before + Stream(pages) == before;
      WalkEnd(before, total);
    } else {
      var page, rest := pages[0], pages[1..];
      var next := before + page.Encode();
      StreamStep(before, pages);
      hide Stream;
      WalkPage(before, page, Stream(rest), total);
      WalkStream(next, rest, Max(total, page.granule));
    }
  }

  ghost predicate NoCapture(garbage: seq<byte>) {
    forall i: nat :: i + 4 <= |garbage| ==> !CaptureAt(garbage, i)
  }

  /** A capture pattern cannot begin in the garbage and end in the first page. */
  lemma NoStraddle(garbage: seq<byte>, pages: seq<Page>, i: nat)
    requires NoCapture(garbage) && AllValid(pages)
    requires i < |garbage| && i + 4 <= |garbage + Stream(pages)|
    ensures !CaptureAt(garbage + Stream(pages), i)
  {
    var data := garbage + Stream(pages);
    if i + 4 <= |garbage| {
      assert !CaptureAt(garbage, i);
      assert data[i..i + 4] == garbage[i..i + 4];
    } else {
      assert pages[0].Encode()[0] == 0x4F;
      assert data[i..i + 4][|garbage| - i] == data[|garbage|] == 0x4F;
    }
  }

  lemma {:induction false} SkipGarbage(garbage: seq<byte>, pages: seq<Page>, pos: nat, total: int)
    requires NoCapture(garbage) && AllValid(pages) && pos <= |garbage|
    ensures Walk(garbage + Stream(pages), pos, total) == Walk(garbage + Stream(pages), |garbage|, total)
    decreases |garbage| - pos
  {
    if pos < |garbage| {
      SkipGarbage(garbage, pages, pos + 1, total);
      StreamLength(pages);
      if pos + HEADER_SIZE <= |garbage + Stream(pages)| {
        NoStraddle(garbage, pages, pos);
      }
    }
  }

  /** On any garbage without a capture pattern, followed by any well-formed pages, exactly the page
      starts are visited and the result is the largest granule position, or 0. */
  lemma DurationOfStream(garbage: seq<byte>, pages: seq<Page>)
    requires NoCapture(garbage) && AllValid(pages)
    ensures Walk(garbage + Stream(pages), 0, 0) == (PageStarts(pages, |garbage|), LargestGranule(pages, 0))
    ensures Walk(garbage + Stream(pages), 0, 0).1 == Walk(Stream(pages), 0, 0).1
  {
    SkipGarbage(garbage, pages, 0, 0);
    WalkStream(garbage, pages, 0);
    WalkStream([], pages, 0);
    assert [] + Stream(pages) == Stream(pages);
  }

  lemma {:induction false} LargestGranuleIsMax(pages: seq<Page>, least: int)
    ensures least <= LargestGranule(pages, least)
    ensures forall i :: 0 <= i < |pages| ==> pages[i].granule <= LargestGranule(pages, least)
    ensures LargestGranule(pages, least) == least ||
            exists i :: 0 <= i < |pages| && pages[i].granule == LargestGranule(pages, least)
  {
    if pages != [] {
      var rest, best := pages[1..], Max(least, pages[0].granule);
      LargestGranuleIsMax(rest, best);
      assert forall i :: 0 < i < |pages| ==> pages[i] == rest[i - 1];
      if i :| 0 <= i < |rest| && rest[i].granule == LargestGranule(rest, best) {
        assert pages[i + 1] == rest[i];
      }
    }
  }

  // ----- at literal bytes -----

  /** A page with this granule position below 65536, one segment and three bytes of payload. */
  function SmallPage(low: byte, high: byte): seq<byte> {
    [0x4F, 0x67, 0x67, 0x53, 0, 0, low, high, 0, 0, 0, 0, 0, 0, 1, 1, 1, 1, 2, 2, 2, 2, 3, 3, 3, 3, 1, 3, 7, 8, 9]
  }

  lemma SmallGranule(low: byte, high: byte)
    ensures LittleEndian(low + 256 * high, 8) == [low, high, 0, 0, 0, 0, 0, 0]
  {
    var n := low + 256 * high;
    assert n % 256 == low && n / 256 == high;
    assert LittleEndian(0, 6) == [0, 0, 0, 0, 0, 0] by {
      assert LittleEndian(0, 1) == [0] && LittleEndian(0, 2) == [0, 0] && LittleEndian(0, 3) == [0, 0, 0];
      assert LittleEndian(0, 4) == [0, 0, 0, 0] && LittleEndian(0, 5) == [0, 0, 0, 0, 0];
    }
    assert LittleEndian(high, 7) == [high] + LittleEndian(0, 6);
    assert LittleEndian(n, 8) == [low] + LittleEndian(high, 7);
  }

  lemma SmallPageIs(low: byte, high: byte)
    ensures var page := Page(0, 0, low + 256 * high, [1, 1, 1, 1], [2, 2, 2, 2], [3, 3, 3, 3], [3], [7, 8, 9]);
            page.Valid() && page.Encode() == SmallPage(low, high)
  {
    hide LittleEndian, Sum;
    SmallGranule(low, high);
    assert Sum([3]) == 3 by { OneByte(3); }
    var a := CAPTURE + [0, 0];
    assert a == [0x4F, 0x67, 0x67, 0x53, 0, 0];
    var b := a + [low, high, 0, 0, 0, 0, 0, 0];
    assert b == [0x4F, 0x67, 0x67, 0x53, 0, 0, low, high, 0, 0, 0, 0, 0, 0];
    var c := b + [1, 1, 1, 1] + [2, 2, 2, 2] + [3, 3, 3, 3];
    assert c == [0x4F, 0x67, 0x67, 0x53, 0, 0, low, high, 0, 0, 0, 0, 0, 0, 1, 1, 1, 1, 2, 2, 2, 2, 3, 3, 3, 3];
    assert c + [1] + [3] + [7, 8, 9] == SmallPage(low, high);
  }

  lemma OneByte(b: byte)
    ensures Sum([b]) == b
  {
  }

  /** Two pages at granule positions 24000 and 48000, behind two other bytes: the walk finds both, and the file
      lasts one second. */
  lemma OneSecond()
    ensures Walk([5, 6] + SmallPage(0xC0, 0x5D) + SmallPage(0x80, 0xBB), 0, 0) == ([2, 33], 48000)
    ensures 48000.0 / SAMPLE_RATE == 1.0
  {
    hide Walk, SmallPage, Page.Encode, Stream, PageStarts, LargestGranule;
    var first := Page(0, 0, 24000, [1, 1, 1, 1], [2, 2, 2, 2], [3, 3, 3, 3], [3], [7, 8, 9]);
    var second := first.(granule := 48000);
    SmallPageIs(0xC0, 0x5D);
    SmallPageIs(0x80, 0xBB);
    SmallLength(0xC0, 0x5D);
    TwoPages(first, second, 2);
    DurationOfStream([5, 6], [first, second]);
    assert [5, 6] + (SmallPage(0xC0, 0x5D) + SmallPage(0x80, 0xBB)) ==
           [5, 6] + SmallPage(0xC0, 0x5D) + SmallPage(0x80, 0xBB);
  }

  lemma TwoPages(first: Page, second: Page, at: nat)
    requires first.Valid() && second.Valid() && 0 <= first.granule <= second.granule
    ensures Stream([first, second]) == first.Encode() + second.Encode()
    ensures PageStarts([first, second], at) == [at, at + |first.Encode()|]
    ensures LargestGranule([first, second], 0) == second.granule
  {
    hide Page.Encode;
    assert [first, second][1..] == [second] && [second][1..] == [];
    assert Stream([second]) == second.Encode() + Stream([]) == second.Encode();
    assert PageStarts([second], at + |first.Encode()|) == [at + |first.Encode()|];
    assert LargestGranule([second], first.granule) == second.granule;
  }

  lemma SmallLength(low: byte, high: byte)
    ensures |SmallPage(low, high)| == 31
  {
  }
}
