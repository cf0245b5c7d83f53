/** The Ogg page scanner of getOpusDuration in common/audio.go, against a writer of Ogg pages
    (section 6 of RFC 3533). The reader returns as many bytes as the buffer holds or as are
    left, as a file or a byte reader does. */
module OggOpus {
  import opened Prelude

  type byte = x: int | 0 <= x < 256

  const HEADER := 27
  const TWO_TO_63: int := 0x8000_0000_0000_0000
  const TWO_TO_64: int := 0x1_0000_0000_0000_0000

  // "OggS"
  const MAGIC: seq<byte> := [0x4f, 0x67, 0x67, 0x53]

  // ---------------------------------------------------------------- numbers

  /** binary.LittleEndian.Uint64 and its shorter relatives. */
  function Little(bytes: seq<byte>): nat {
    if bytes == [] then 0 else bytes[0] + 256 * Little(bytes[1..])
  }

  function ToLittle(n: nat, width: nat): (bytes: seq<byte>)
    ensures |bytes| == width
  {
    if width == 0 then [] else [n % 256] + ToLittle(n / 256, width - 1)
  }

  /** The conversion int64(uint64). */
  function Signed(n: nat): int
    requires n < TWO_TO_64
  {
    if n < TWO_TO_63 then n else n - TWO_TO_64
  }

  function Power256(width: nat): nat {
    if width == 0 then 1 else 256 * Power256(width - 1)
  }

  lemma {:induction false} LittleBound(bytes: seq<byte>)
    ensures Little(bytes) < Power256(|bytes|)
  {
    if bytes != [] { LittleBound(bytes[1..]); }
  }

  lemma {:induction false} LittleRoundTrip(n: nat, width: nat)
    requires n < Power256(width)
    ensures Little(ToLittle(n, width)) == n
  {
    if width > 0 {
      LittleRoundTrip(n / 256, width - 1);
      assert ToLittle(n, width)[1..] == ToLittle(n / 256, width - 1);
    }
  }

  lemma EightBytes()
    ensures Power256(8) == TWO_TO_64
  {
    assert Power256(4) == 0x1_0000_0000;
  }

  function Sum(bytes: seq<byte>): nat {
    if bytes == [] then 0 else bytes[0] + Sum(bytes[1..])
  }

  /** The sum goes over all bytes, from either side. */
  lemma {:induction false} SumAppend(bytes: seq<byte>, b: byte)
    ensures Sum([]) == 0 && Sum(bytes + [b]) == Sum(bytes) + b
  {
    if bytes != [] {
      assert (bytes + [b])[1..] == bytes[1..] + [b];
      SumAppend(bytes[1..], b);
    }
  }

  /** The conversion to int64: the number in its range that differs by a multiple of 2^64. */
  lemma SignedIs(n: nat)
    requires n < 0x1_0000_0000_0000_0000
    ensures -0x8000_0000_0000_0000 <= Signed(n) < 0x8000_0000_0000_0000
    ensures (n - Signed(n)) % 0x1_0000_0000_0000_0000 == 0
  {
  }

  // ---------------------------------------------------------------- the scanner

  /** The granule position field of a page header, as a signed number. */
  function Granule(header: seq<byte>): int
    requires |header| == HEADER
  {
    LittleBound(header[6..14]);
    EightBytes();
    Signed(Little(header[6..14]))
  }

  predicate PageStarts(file: seq<byte>, pos: nat) {
    pos + 4 <= |file| && file[pos..pos + 4] == MAGIC
  }

  datatype Move = Stop | Skip | Page(granule: int, next: nat) | Truncated(lastGranule: int)

  /** What one iteration does at `pos`: stop when no whole header is left, slide by one byte
      when no page starts here, take a page and jump behind it, or take a page whose segment
      table is cut off and stop. */
  function Look(file: seq<byte>, pos: nat): Move {
    if pos + HEADER > |file| then Stop
    else
      var header := file[pos..pos + HEADER];
      if header[..4] != MAGIC then Skip
      else
        var segments := header[26];
        var table := pos + HEADER;
        if table + segments > |file| then Truncated(Granule(header))
        else Page(Granule(header), table + segments + Sum(file[table..table + segments]))
  }

  /** The largest granule position found from `pos` on, and the positions of the pages. */
  function Scan(file: seq<byte>, pos: nat): (r: (int, seq<nat>))
    ensures r.0 >= 0
    decreases |file| - pos
  {
    match Look(file, pos)
    case Stop => (0, [])
    case Truncated(granule) => (Max(granule, 0), [pos])
    case Skip => Scan(file, pos + 1)
    case Page(granule, next) =>
      var (rest, pages) := Scan(file, next);
      (Max(granule, rest), [pos] + pages)
  }

  /** One iteration of the loop: read a header, and when a page starts here, its segment table. */
  method ReadAt(file: seq<byte>, pos: nat) returns (move: Move)
    ensures move == Look(file, pos)
  {
    // r.Read(buf)
    if pos >= |file| {
      return Stop;
    }
    var n := if pos + HEADER <= |file| then HEADER else |file| - pos;
    var buf := file[pos..pos + n];
    if n < HEADER {
      return Stop;
    }
    if buf[..4] != MAGIC {
      return Skip;
    }
    var granule, segments := Granule(buf), buf[26];
    // io.ReadFull(r, segmentTable)
    var table := pos + n;
    if table + segments > |file| {
      return Truncated(granule);
    }
    var pageSize := SumOf(file[table..table + segments]);
    return Page(granule, table + segments + pageSize);
  }

  lemma PagesMove(before: seq<nat>, here: seq<nat>, after: seq<nat>)
    ensures before + (here + after) == before + here + after
  {
  }

  /** getOpusDuration up to the division by 48000. Every iteration moves forward, on any
      input, so the loop ends. */
  method TotalGranule(file: seq<byte>) returns (total: int, ghost pages: seq<nat>)
    ensures total == Scan(file, 0).0
    ensures pages == Scan(file, 0).1
  {
    var pos := 0;
    total := 0;
    pages := [];
    while true
      invariant total >= 0
      invariant Scan(file, 0).0 == Max(total, Scan(file, pos).0)
      invariant Scan(file, 0).1 == pages + Scan(file, pos).1
      decreases |file| - pos
    {
      var move := ReadAt(file, pos);
      match move
      case Stop =>
        break;
      case Skip =>
        pos := pos + 27 - 26;
      case Truncated(granule) =>
        if granule > total {
          total := granule;
        }
        pages := pages + [pos];
        break;
      case Page(granule, next) =>
        if granule > total {
          total := granule;
        }
        PagesMove(pages, [pos], Scan(file, next).1);
        pages := pages + [pos];
        pos := next;
    }
  }

  method SumOf(bytes: seq<byte>) returns (sum: nat)
    ensures sum == Sum(bytes)
  {
    sum := 0;
    for i := 0 to |bytes|
      invariant sum + Sum(bytes[i..]) == Sum(bytes)
    {
      sum := sum + bytes[i];
    }
  }

  // ---------------------------------------------------------------- the writer

  /** A page as section 6 of RFC 3533 lays it out. The segment table has at most 255 entries
      and the body is as long as the table says. */
  datatype OggPage = OggPage(flags: byte, granule: nat, serial: nat, sequence: nat, checksum: nat,
                             table: seq<byte>, body: seq<byte>)

  predicate WellFormed(p: OggPage) {
    p.granule < TWO_TO_64 && |p.table| <= 255 && |p.body| == Sum(p.table)
  }

  type WellFormedPage = p: OggPage | WellFormed(p) witness OggPage(0, 0, 0, 0, 0, [], [])

  function Header(p: WellFormedPage): (h: seq<byte>)
    ensures |h| == HEADER
  {
    MAGIC + [0, p.flags] + ToLittle(p.granule, 8) + ToLittle(p.serial, 4) + ToLittle(p.sequence, 4) +
    ToLittle(p.checksum, 4) + [|p.table|]
  }

  function WritePage(p: WellFormedPage): seq<byte>
  {
    Header(p) + p.table + p.body
  }

  /** The bytes of a page and its signed granule position, with the bytes in front of it that belong to no page. */
  datatype Chunk = Chunk(junk: seq<byte>, bytes: seq<byte>, granule: int)

  function OfPage(junk: seq<byte>, p: WellFormedPage): Chunk {
    Chunk(junk, WritePage(p), Signed(p.granule))
  }

  /** A stream: pages, each with the junk in front of it. */
  function Stream(parts: seq<(seq<byte>, WellFormedPage)>): seq<Chunk> {
    seq(|parts|, i requires 0 <= i < |parts| => OfPage(parts[i].0, parts[i].1))
  }

  function WriteChunks(chunks: seq<Chunk>, trailer: seq<byte>): seq<byte>
  {
    if chunks == [] then trailer
    else chunks[0].junk + (chunks[0].bytes + WriteChunks(chunks[1..], trailer))
  }

  /** Where the chunks lie when the stream begins at `pos` of the file. */
  predicate Placed(file: seq<byte>, pos: nat, chunks: seq<Chunk>)
    decreases |chunks|
  {
    if chunks == [] then pos <= |file|
    else
      var start := pos + |chunks[0].junk|;
      HasAt(file, start, chunks[0].bytes) && Placed(file, start + |chunks[0].bytes|, chunks[1..])
  }

  predicate HasAt(file: seq<byte>, pos: nat, part: seq<byte>) {
    pos + |part| <= |file| && file[pos..pos + |part|] == part
  }

  /** No page seems to start between `from` and `to`. */
  predicate Silent(file: seq<byte>, from: nat, to: int) {
    forall k :: from <= k < to ==> !PageStarts(file, k)
  }

  /** No page seems to start inside the junk, and none that has a whole header in what follows the last page. */
  predicate Quiet(file: seq<byte>, pos: nat, chunks: seq<Chunk>)
    decreases |chunks|
  {
    if chunks == [] then Silent(file, pos, |file| - HEADER + 1)
    else
      var start := pos + |chunks[0].junk|;
      Silent(file, pos, start) && Quiet(file, start + |chunks[0].bytes|, chunks[1..])
  }

  /** The largest signed granule position, or 0 when none is positive. */
  function LargestGranule(chunks: seq<Chunk>): int
  {
    if chunks == [] then 0 else Max(chunks[0].granule, LargestGranule(chunks[1..]))
  }

  /** Where the pages begin when the stream begins at `pos`. */
  function Boundaries(chunks: seq<Chunk>, pos: nat): seq<nat>
  {
    if chunks == [] then []
    else
      var start := pos + |chunks[0].junk|;
      [start] + Boundaries(chunks[1..], start + |chunks[0].bytes|)
  }

  // ---------------------------------------------------------------- the scanner reads what was written

  lemma HeaderFields(p: WellFormedPage)
    ensures Header(p)[..4] == MAGIC && Header(p)[26] == |p.table|
    ensures Granule(Header(p)) == Signed(p.granule)
  {
    var h := Header(p);
    assert h[6..14] == ToLittle(p.granule, 8);
    EightBytes();
    LittleRoundTrip(p.granule, 8);
  }

  lemma HasParts(file: seq<byte>, pos: nat, first: seq<byte>, second: seq<byte>)
    ensures HasAt(file, pos, first + second) <==> HasAt(file, pos, first) && HasAt(file, pos + |first|, second)
  {
    var both := first + second;
    if HasAt(file, pos, both) {
      assert file[pos..pos + |first|] == file[pos..pos + |both|][..|first|];
      assert file[pos + |first|..pos + |both|] == file[pos..pos + |both|][|first|..];
    }
    if HasAt(file, pos, first) && HasAt(file, pos + |first|, second) {
      assert file[pos..pos + |both|] == file[pos..pos + |first|] + file[pos + |first|..pos + |both|];
    }
  }

  lemma LookAtPage(file: seq<byte>, pos: nat, p: WellFormedPage)
    requires HasAt(file, pos, WritePage(p))
    ensures Look(file, pos) == Page(Signed(p.granule), pos + |WritePage(p)|)
  {
    HeaderFields(p);
    HasParts(file, pos, Header(p) + p.table, p.body);
    HasParts(file, pos, Header(p), p.table);
  }

  /** Wherever the chunk's page is written, one iteration takes it whole. */
  ghost predicate Reads(c: Chunk) {
    forall file: seq<byte>, pos: nat :: ReadsIn(c, file, pos)
  }

  predicate ReadsIn(c: Chunk, file: seq<byte>, pos: nat) {
    HasAt(file, pos, c.bytes) ==> pos + HEADER <= |file| && Look(file, pos) == Page(c.granule, pos + |c.bytes|)
  }

  lemma PagesRead(junk: seq<byte>, p: WellFormedPage)
    ensures Reads(OfPage(junk, p))
  {
    forall file: seq<byte>, pos: nat
      ensures ReadsIn(OfPage(junk, p), file, pos)
    {
      if HasAt(file, pos, WritePage(p)) { LookAtPage(file, pos, p); }
    }
  }

  lemma StreamReads(parts: seq<(seq<byte>, WellFormedPage)>)
    ensures forall i :: 0 <= i < |Stream(parts)| ==> Reads(Stream(parts)[i])
  {
    forall i | 0 <= i < |parts| ensures Reads(Stream(parts)[i]) {
      PagesRead(parts[i].0, parts[i].1);
    }
  }

  /** Writing the chunks puts them in their places. */
  lemma {:induction false} WritingPlaces(file: seq<byte>, pos: nat, chunks: seq<Chunk>, trailer: seq<byte>)
    requires HasAt(file, pos, WriteChunks(chunks, trailer))
    ensures Placed(file, pos, chunks)
    decreases |chunks|
  {
    if chunks != [] {
      var rest := WriteChunks(chunks[1..], trailer);
      HasParts(file, pos, chunks[0].junk, chunks[0].bytes + rest);
      HasParts(file, pos + |chunks[0].junk|, chunks[0].bytes, rest);
      WritingPlaces(file, pos + |chunks[0].junk| + |chunks[0].bytes|, chunks[1..], trailer);
    }
  }

  /** The scanner slides over bytes at which no page starts. */
  lemma {:induction false} SlideOver(file: seq<byte>, pos: nat, n: nat)
    requires pos + n + HEADER <= |file| && Silent(file, pos, pos + n)
    ensures Scan(file, pos) == Scan(file, pos + n)
    decreases n
  {
    if n > 0 {
      assert file[pos..pos + HEADER][..4] == file[pos..pos + 4];
      assert !PageStarts(file, pos);
      SlideOver(file, pos + 1, n - 1);
    }
  }

  lemma {:induction false} NothingInTrailer(file: seq<byte>, pos: nat)
    requires pos <= |file| && Silent(file, pos, |file| - HEADER + 1)
    ensures Scan(file, pos) == (0, [])
    decreases |file| - pos
  {
    if pos + HEADER <= |file| {
      assert file[pos..pos + HEADER][..4] == file[pos..pos + 4];
      assert !PageStarts(file, pos);
      NothingInTrailer(file, pos + 1);
    }
  }

  lemma ScanTakesPage(file: seq<byte>, pos: nat, c: Chunk)
    requires HasAt(file, pos, c.bytes) && Reads(c)
    ensures pos + HEADER <= |file|
    ensures Scan(file, pos) == (Max(c.granule, Scan(file, pos + |c.bytes|).0), [pos] + Scan(file, pos + |c.bytes|).1)
  {
    assert ReadsIn(c, file, pos);
  }

  lemma ScanChunk(file: seq<byte>, pos: nat, c: Chunk)
    requires HasAt(file, pos + |c.junk|, c.bytes) && Reads(c) && Silent(file, pos, pos + |c.junk|)
    ensures var start := pos + |c.junk|;
            var next := start + |c.bytes|;
            Scan(file, pos) == (Max(c.granule, Scan(file, next).0), [start] + Scan(file, next).1)
  {
    ScanTakesPage(file, pos + |c.junk|, c);
    SlideOver(file, pos, |c.junk|);
  }

  lemma {:induction false} ScanReadsChunks(file: seq<byte>, pos: nat, chunks: seq<Chunk>)
    requires Placed(file, pos, chunks) && Quiet(file, pos, chunks)
    requires forall i :: 0 <= i < |chunks| ==> Reads(chunks[i])
    ensures Scan(file, pos) == (LargestGranule(chunks), Boundaries(chunks, pos))
    decreases |chunks|
  {
    if chunks == [] {
      NothingInTrailer(file, pos);
    } else {
      ScanChunk(file, pos, chunks[0]);
      ScanReadsChunks(file, pos + |chunks[0].junk| + |chunks[0].bytes|, chunks[1..]);
    }
  }

  /** On every stream of well-formed pages, with junk in front of any of them in which no page
      starts, the scanner visits exactly the page boundaries and returns the maximum of 0 and
      the largest signed granule position. */
  lemma ScanReadsWhatWasWritten(parts: seq<(seq<byte>, WellFormedPage)>, trailer: seq<byte>)
    requires Quiet(WriteChunks(Stream(parts), trailer), 0, Stream(parts))
    ensures Scan(WriteChunks(Stream(parts), trailer), 0) ==
            (LargestGranule(Stream(parts)), Boundaries(Stream(parts), 0))
  {
    var file := WriteChunks(Stream(parts), trailer);
    assert file[0..|file|] == file;
    StreamReads(parts);
    WritingPlaces(file, 0, Stream(parts), trailer);
    ScanReadsChunks(file, 0, Stream(parts));
  }

  /** The first place at which a page seems to start is visited, wherever it lies. */
  lemma {:induction false} FirstMatchIsVisited(file: seq<byte>, pos: nat, k: nat)
    requires pos <= k && k + HEADER <= |file| && PageStarts(file, k)
    ensures Scan(file, pos).1 != [] && Scan(file, pos).1[0] <= k
    decreases k - pos
  {
    assert file[pos..pos + HEADER][..4] == file[pos..pos + 4];
    if pos < k && !PageStarts(file, pos) {
      FirstMatchIsVisited(file, pos + 1, k);
    }
  }

  lemma BoundariesSplit(chunks: seq<Chunk>, pos: nat)
    requires chunks != []
    ensures var start := pos + |chunks[0].junk|;
            && Boundaries(chunks, pos) != [] && Boundaries(chunks, pos)[0] == start
            && Boundaries(chunks, pos)[1..] == Boundaries(chunks[1..], start + |chunks[0].bytes|)
  {
  }

  lemma PagesAfterChunk(file: seq<byte>, pos: nat, c: Chunk)
    requires HasAt(file, pos + |c.junk|, c.bytes) && Reads(c) && Silent(file, pos, pos + |c.junk|)
    ensures Scan(file, pos).1 != [] && Scan(file, pos).1[1..] == Scan(file, pos + |c.junk| + |c.bytes|).1
  {
    ScanChunk(file, pos, c);
  }

  lemma NoiseInJunk(file: seq<byte>, pos: nat, c: Chunk)
    requires HasAt(file, pos + |c.junk|, c.bytes) && Reads(c) && !Silent(file, pos, pos + |c.junk|)
    ensures Scan(file, pos).1 != [] && Scan(file, pos).1[0] < pos + |c.junk|
  {
    ScanTakesPage(file, pos + |c.junk|, c);
    var k :| pos <= k < pos + |c.junk| && PageStarts(file, k);
    FirstMatchIsVisited(file, pos, k);
  }

  lemma NoiseNow(file: seq<byte>, pos: nat, chunks: seq<Chunk>)
    requires chunks != [] && HasAt(file, pos + |chunks[0].junk|, chunks[0].bytes) && Reads(chunks[0])
    requires !Silent(file, pos, pos + |chunks[0].junk|)
    ensures Scan(file, pos).1 != Boundaries(chunks, pos)
  {
    NoiseInJunk(file, pos, chunks[0]);
    BoundariesSplit(chunks, pos);
  }

  lemma NoiseLater(visited: seq<nat>, pos: nat, chunks: seq<Chunk>, next: nat)
    requires chunks != [] && visited != [] && next == pos + |chunks[0].junk| + |chunks[0].bytes|
    requires visited[1..] != Boundaries(chunks[1..], next)
    ensures visited != Boundaries(chunks, pos)
  {
    BoundariesSplit(chunks, pos);
  }

  lemma {:induction false} NoiseIsVisited(file: seq<byte>, pos: nat, chunks: seq<Chunk>)
    requires Placed(file, pos, chunks) && !Quiet(file, pos, chunks)
    requires forall i :: 0 <= i < |chunks| ==> Reads(chunks[i])
    ensures Scan(file, pos).1 != Boundaries(chunks, pos)
    decreases |chunks|
  {
    if chunks == [] {
      var k :| pos <= k < |file| - HEADER + 1 && PageStarts(file, k);
      FirstMatchIsVisited(file, pos, k);
    } else if !Silent(file, pos, pos + |chunks[0].junk|) {
      NoiseNow(file, pos, chunks);
    } else {
      var next := pos + |chunks[0].junk| + |chunks[0].bytes|;
      NoiseIsVisited(file, next, chunks[1..]);
      PagesAfterChunk(file, pos, chunks[0]);
      NoiseLater(Scan(file, pos).1, pos, chunks, next);
    }
  }

  /** Whatever the junk contains, the scanner visits exactly the page boundaries if and only
      if no page seems to start outside them. */
  lemma VisitsBoundariesIffQuiet(parts: seq<(seq<byte>, WellFormedPage)>, trailer: seq<byte>)
    ensures var file := WriteChunks(Stream(parts), trailer);
            Scan(file, 0).1 == Boundaries(Stream(parts), 0) <==> Quiet(file, 0, Stream(parts))
  {
    var file := WriteChunks(Stream(parts), trailer);
    assert file[0..|file|] == file;
    StreamReads(parts);
    WritingPlaces(file, 0, Stream(parts), trailer);
    if Quiet(file, 0, Stream(parts)) {
      ScanReadsChunks(file, 0, Stream(parts));
    } else {
      NoiseIsVisited(file, 0, Stream(parts));
    }
  }

  lemma {:induction false} NoJunkIsQuiet(file: seq<byte>, pos: nat, chunks: seq<Chunk>)
    requires forall i :: 0 <= i < |chunks| ==> chunks[i].junk == []
    requires pos + |WriteChunks(chunks, [])| == |file|
    ensures Quiet(file, pos, chunks)
    decreases |chunks|
  {
    if chunks != [] { NoJunkIsQuiet(file, pos + |chunks[0].bytes|, chunks[1..]); }
  }

  /** The plain case: pages back to back. */
  lemma ScanOfPages(pages: seq<WellFormedPage>)
    ensures var chunks := Stream(seq(|pages|, i requires 0 <= i < |pages| => ([], pages[i])));
            Scan(WriteChunks(chunks, []), 0) == (LargestGranule(chunks), Boundaries(chunks, 0))
  {
    var parts := seq(|pages|, i requires 0 <= i < |pages| => ([], pages[i]));
    NoJunkIsQuiet(WriteChunks(Stream(parts), []), 0, Stream(parts));
    ScanReadsWhatWasWritten(parts, []);
  }

  /** The returned value is the maximum: at least 0 and every granule, and one of them. */
  lemma {:induction false} LargestGranuleIsMaximum(chunks: seq<Chunk>)
    ensures LargestGranule(chunks) >= 0
    ensures forall i :: 0 <= i < |chunks| ==> LargestGranule(chunks) >= chunks[i].granule
    ensures LargestGranule(chunks) == 0 ||
            exists i :: 0 <= i < |chunks| && LargestGranule(chunks) == chunks[i].granule
  {
    if chunks != [] {
      LargestGranuleIsMaximum(chunks[1..]);
      assert forall i :: 1 <= i < |chunks| ==> chunks[i] == chunks[1..][i - 1];
    }
  }

  // ---------------------------------------------------------------- a file that ends inside a page

  /** No page seems to start inside the junk. */
  predicate JunkIsQuiet(file: seq<byte>, pos: nat, chunks: seq<Chunk>)
    decreases |chunks|
  {
    chunks == [] ||
    var start := pos + |chunks[0].junk|;
    Silent(file, pos, start) && JunkIsQuiet(file, start + |chunks[0].bytes|, chunks[1..])
  }

  function EndOf(chunks: seq<Chunk>, pos: nat): nat {
    if chunks == [] then pos else EndOf(chunks[1..], pos + |chunks[0].junk| + |chunks[0].bytes|)
  }

  /** What the scan finds in front of and behind the first chunk, when a rest is found behind all of them. */
  predicate Finds(found: (int, seq<nat>), chunks: seq<Chunk>, pos: nat, rest: (int, seq<nat>)) {
    found.0 == Max(LargestGranule(chunks), rest.0) && found.1 == Boundaries(chunks, pos) + rest.1
  }

  lemma FindsNoMore(rest: (int, seq<nat>), pos: nat)
    requires rest.0 >= 0
    ensures Finds(rest, [], pos, rest)
  {
    assert [] + rest.1 == rest.1;
  }

  lemma FindsOneMore(found: (int, seq<nat>), later: (int, seq<nat>), chunks: seq<Chunk>, pos: nat,
                     rest: (int, seq<nat>))
    requires chunks != [] && Finds(later, chunks[1..], pos + |chunks[0].junk| + |chunks[0].bytes|, rest)
    requires found == (Max(chunks[0].granule, later.0), [pos + |chunks[0].junk|] + later.1)
    ensures Finds(found, chunks, pos, rest)
  {
    PagesMove([pos + |chunks[0].junk|], Boundaries(chunks[1..], pos + |chunks[0].junk| + |chunks[0].bytes|), rest.1);
  }

  /** The scan passes over the junk, takes the page and goes on behind it. */
  predicate Takes(scan: nat -> (int, seq<nat>), pos: nat, c: Chunk) {
    var start := pos + |c.junk|;
    var next := start + |c.bytes|;
    scan(pos) == (Max(c.granule, scan(next).0), [start] + scan(next).1)
  }

  /** The chunk lies here, with silent junk in front of a page that can be read. */
  ghost predicate Stands(file: seq<byte>, pos: nat, c: Chunk) {
    HasAt(file, pos + |c.junk|, c.bytes) && Reads(c) && Silent(file, pos, pos + |c.junk|)
  }

  /** The scan takes the chunks one after the other. */
  predicate TakesInTurn(scan: nat -> (int, seq<nat>), pos: nat, chunks: seq<Chunk>)
    decreases |chunks|
  {
    chunks == [] ||
    (Takes(scan, pos, chunks[0]) && TakesInTurn(scan, pos + |chunks[0].junk| + |chunks[0].bytes|, chunks[1..]))
  }

  lemma {:induction false} ChunksInTurn(file: seq<byte>, scan: nat -> (int, seq<nat>), pos: nat, chunks: seq<Chunk>)
    requires Placed(file, pos, chunks) && JunkIsQuiet(file, pos, chunks)
    requires forall i :: 0 <= i < |chunks| ==> Reads(chunks[i])
    requires forall at: nat, c: Chunk | Stands(file, at, c) :: Takes(scan, at, c)
    ensures TakesInTurn(scan, pos, chunks)
    decreases |chunks|
  {
    if chunks != [] {
      assert Stands(file, pos, chunks[0]);
      ChunksInTurn(file, scan, pos + |chunks[0].junk| + |chunks[0].bytes|, chunks[1..]);
    }
  }

  lemma ScanTakes(file: seq<byte>, scan: nat -> (int, seq<nat>), at: nat, c: Chunk)
    requires Stands(file, at, c)
    requires scan(at) == Scan(file, at)
    requires scan(at + |c.junk| + |c.bytes|) == Scan(file, at + |c.junk| + |c.bytes|)
    ensures Takes(scan, at, c)
  {
    ScanChunk(file, at, c);
  }

  lemma ScanTakesInTurn(file: seq<byte>, scan: nat -> (int, seq<nat>), pos: nat, chunks: seq<Chunk>)
    requires Placed(file, pos, chunks) && JunkIsQuiet(file, pos, chunks)
    requires forall i :: 0 <= i < |chunks| ==> Reads(chunks[i])
    requires forall at: nat :: scan(at) == Scan(file, at)
    ensures TakesInTurn(scan, pos, chunks)
  {
    forall at: nat, c: Chunk | Stands(file, at, c) ensures Takes(scan, at, c) { ScanTakes(file, scan, at, c); }
    ChunksInTurn(file, scan, pos, chunks);
  }

  lemma {:induction false} ScanThenRest(scan: nat -> (int, seq<nat>), pos: nat, chunks: seq<Chunk>)
    requires TakesInTurn(scan, pos, chunks) && scan(EndOf(chunks, pos)).0 >= 0
    ensures Finds(scan(pos), chunks, pos, scan(EndOf(chunks, pos)))
    decreases |chunks|
  {
    if chunks == [] {
      FindsNoMore(scan(pos), pos);
    } else {
      var next := pos + |chunks[0].junk| + |chunks[0].bytes|;
      ScanThenRest(scan, next, chunks[1..]);
      FindsOneMore(scan(pos), scan(next), chunks, pos, scan(EndOf(chunks, pos)));
    }
  }

  lemma {:induction false} TrailerAtEnd(file: seq<byte>, pos: nat, chunks: seq<Chunk>, trailer: seq<byte>)
    requires HasAt(file, pos, WriteChunks(chunks, trailer)) && pos + |WriteChunks(chunks, trailer)| == |file|
    ensures HasAt(file, EndOf(chunks, pos), trailer) && EndOf(chunks, pos) + |trailer| == |file|
    decreases |chunks|
  {
    if chunks != [] {
      var rest := WriteChunks(chunks[1..], trailer);
      HasParts(file, pos, chunks[0].junk, chunks[0].bytes + rest);
      HasParts(file, pos + |chunks[0].junk|, chunks[0].bytes, rest);
      TrailerAtEnd(file, pos + |chunks[0].junk| + |chunks[0].bytes|, chunks[1..], trailer);
    }
  }

  lemma HeaderOfCutPage(file: seq<byte>, pos: nat, p: WellFormedPage, n: nat)
    requires HEADER <= n < |WritePage(p)| && HasAt(file, pos, WritePage(p)[..n])
    ensures file[pos..pos + HEADER] == Header(p)
  {
    assert file[pos..pos + HEADER] == file[pos..pos + n][..HEADER];
    assert WritePage(p)[..n][..HEADER] == Header(p);
  }

  lemma MiddlePart<T>(first: seq<T>, middle: seq<T>, last: seq<T>, n: nat)
    requires |first| + |middle| <= n <= |first| + |middle| + |last|
    ensures (first + middle + last)[..n][|first|..|first| + |middle|] == middle
  {
  }

  lemma PartOfPart(file: seq<byte>, pos: nat, n: nat, from: nat, to: nat)
    requires from <= to <= n && pos + n <= |file|
    ensures file[pos + from..pos + to] == file[pos..pos + n][from..to]
  {
    var part, again := file[pos + from..pos + to], file[pos..pos + n][from..to];
    assert |part| == |again|;
    assert forall k | 0 <= k < |part| :: part[k] == file[pos + from + k] == file[pos..pos + n][from + k] == again[k];
  }

  lemma TableOfCutPage(file: seq<byte>, pos: nat, p: WellFormedPage, n: nat)
    requires HEADER + |p.table| <= n < |WritePage(p)| && HasAt(file, pos, WritePage(p)[..n])
    ensures file[pos + HEADER..pos + HEADER + |p.table|] == p.table
  {
    PartOfPart(file, pos, n, HEADER, HEADER + |p.table|);
    MiddlePart(Header(p), p.table, p.body, n);
  }

  lemma LookAtCutPage(file: seq<byte>, pos: nat, p: WellFormedPage, n: nat)
    requires HEADER <= n < |WritePage(p)| && HasAt(file, pos, WritePage(p)[..n]) && pos + n == |file|
    ensures Look(file, pos) == if n < HEADER + |p.table| then Truncated(Signed(p.granule))
                               else Page(Signed(p.granule), pos + |WritePage(p)|)
  {
    HeaderFields(p);
    HeaderOfCutPage(file, pos, p, n);
    if n >= HEADER + |p.table| { TableOfCutPage(file, pos, p, n); }
  }

  lemma ScanEnds(file: seq<byte>, pos: nat, move: Move)
    requires move == Look(file, pos)
    ensures move.Truncated? ==> Scan(file, pos) == (Max(move.lastGranule, 0), [pos])
    ensures move.Page? && move.next + HEADER > |file| ==> Scan(file, pos) == (Max(move.granule, 0), [pos])
  {
    if move.Page? && move.next + HEADER > |file| {
      assert Look(file, move.next) == Stop;
      assert [pos] + [] == [pos];
    }
  }

  /** Inside its segment table or behind it, a cut does not hide a page's granule position. */
  lemma ScanOfCutPage(file: seq<byte>, pos: nat, p: WellFormedPage, n: nat)
    requires n < |WritePage(p)| && HasAt(file, pos, WritePage(p)[..n]) && pos + n == |file|
    ensures Scan(file, pos) == if n < HEADER then (0, []) else (Max(Signed(p.granule), 0), [pos])
  {
    if n >= HEADER {
      LookAtCutPage(file, pos, p, n);
      ScanEnds(file, pos, Look(file, pos));
    }
  }

  /** A file that ends inside its last page: that page counts as soon as its fixed header of 27 bytes is whole, and is
      passed over when it is not. */
  lemma CutPageCountsIffHeaderIsWhole(parts: seq<(seq<byte>, WellFormedPage)>, p: WellFormedPage, n: nat)
    requires n < |WritePage(p)|
    requires JunkIsQuiet(WriteChunks(Stream(parts), WritePage(p)[..n]), 0, Stream(parts))
    ensures var chunks := Stream(parts);
            Scan(WriteChunks(chunks, WritePage(p)[..n]), 0) ==
              if n >= 27 then (Max(LargestGranule(chunks), Max(Signed(p.granule), 0)),
                               Boundaries(chunks, 0) + [EndOf(chunks, 0)])
              else (LargestGranule(chunks), Boundaries(chunks, 0))
  {
    var chunks := Stream(parts);
    var file := WriteChunks(chunks, WritePage(p)[..n]);
    assert file[0..|file|] == file;
    StreamReads(parts);
    WritingPlaces(file, 0, chunks, WritePage(p)[..n]);
    var scan := (at: nat) => Scan(file, at);
    ScanTakesInTurn(file, scan, 0, chunks);
    ScanThenRest(scan, 0, chunks);
    TrailerAtEnd(file, 0, chunks, WritePage(p)[..n]);
    ScanOfCutPage(file, EndOf(chunks, 0), p, n);
    LargestGranuleIsMaximum(chunks);
    assert Boundaries(chunks, 0) + [] == Boundaries(chunks, 0);
  }
}
