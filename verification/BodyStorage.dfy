/** Request bodies in memory and on disk: common/body_storage.go. The memory back end reads
    through Go's bytes.Reader, the disk back end through os.File on a regular file that no
    one else writes. */
module BodyStorage {
  import opened Prelude

  type byte = x: int | 0 <= x < 256
  const MAX_INT64: int := 0x7fff_ffff_ffff_ffff
  const TWO_TO_64: int := 0x1_0000_0000_0000_0000
  type int64 = x: int | -MAX_INT64 - 1 <= x <= MAX_INT64

  datatype Whence = Start | Current | End  // io.SeekStart, io.SeekCurrent, io.SeekEnd

  datatype Error = StorageClosed | Eof | BadSeek | UnexpectedEof

  // ---------------------------------------------------------------- library contracts

  function Min(a: int, b: int): int {
    if a < b then a else b
  }

  /** The bytes from `pos` on, at most `n` of them. */
  function Window(data: seq<byte>, pos: int, n: nat): seq<byte>
    requires 0 <= pos < |data|
  {
    data[pos..Min(pos + n, |data|)]
  }

  /** bytes.Reader.Read into a buffer of `n` bytes. */
  function ReaderRead(data: seq<byte>, pos: nat, n: nat): (seq<byte>, Option<Error>) {
    if pos >= |data| then ([], Some(Eof)) else (Window(data, pos, n), None)
  }

  /** os.File.Read into a buffer of `n` bytes. */
  function FileRead(content: seq<byte>, pos: nat, n: nat): (seq<byte>, Option<Error>) {
    var got := if pos >= |content| then [] else Window(content, pos, n);
    (got, if got == [] && n > 0 then Some(Eof) else None)
  }

  /** int64 addition wraps around. */
  function Add64(a: int64, b: int64): int64 {
    if a + b > MAX_INT64 then a + b - TWO_TO_64
    else if a + b < -MAX_INT64 - 1 then a + b + TWO_TO_64
    else a + b
  }

  /** bytes.Reader.Seek: the new position, or None for an error. */
  function ReaderSeek(size: int64, pos: int64, offset: int64, whence: Whence): Option<int64> {
    var target := match whence
      case Start => offset
      case Current => Add64(pos, offset)
      case End => Add64(size, offset);
    if target < 0 then None else Some(target)
  }

  /** lseek: positions below zero or above the largest offset are refused. */
  function FileSeek(size: int64, pos: int64, offset: int64, whence: Whence): Option<int64> {
    var target := match whence
      case Start => offset
      case Current => pos + offset
      case End => size + offset;
    if target < 0 || target > MAX_INT64 then None else Some(target)
  }

  // ---------------------------------------------------------------- the two back ends

  datatype Memory = Memory(data: seq<byte>, pos: int64, closed: bool)
  datatype Disk = Disk(content: seq<byte>, pos: int64, size: int64, closed: bool)

  datatype Op = Read(n: nat) | Seek(offset: int64, whence: Whence) | Bytes | Close | Size

  datatype Answer =
    | Data(bytes: seq<byte>, error: Option<Error>)
    | Position(pos: int64, posError: Option<Error>)
    | Length(size: int64)
    | Ok

  predicate MemoryOk(m: Memory) {
    |m.data| <= MAX_INT64 && m.pos >= 0
  }

  predicate DiskOk(d: Disk) {
    d.size == |d.content| <= MAX_INT64 && d.pos >= 0
  }

  function OnMemory(m: Memory, op: Op): (r: (Memory, Answer))
    requires MemoryOk(m)
    ensures MemoryOk(r.0)
  {
    match op
    case Read(n) =>
      if m.closed then (m, Data([], Some(StorageClosed)))
      else
        var (got, error) := ReaderRead(m.data, m.pos, n);
        (m.(pos := m.pos + |got|), Data(got, error))
    case Seek(offset, whence) =>
      if m.closed then (m, Position(0, Some(StorageClosed)))
      else
        (match ReaderSeek(|m.data|, m.pos, offset, whence)
         case Some(pos) => (m.(pos := pos), Position(pos, None))
         case None => (m, Position(0, Some(BadSeek))))
    case Bytes =>
      if m.closed then (m, Data([], Some(StorageClosed))) else (m, Data(m.data, None))
    case Close => (m.(closed := true), Ok)
    case Size => (m, Length(|m.data|))
  }

  /** io.ReadFull on the file: read until `n` bytes have arrived or a read fails. */
  function ReadFull(content: seq<byte>, pos: nat, n: nat): (seq<byte>, Option<Error>)
    decreases n
  {
    if n == 0 then ([], None)
    else
      var (got, error) := FileRead(content, pos, n);
      if error.Some? then (got, error)
      else
        var (more, error') := ReadFull(content, pos + |got|, n - |got|);
        (got + more, if error' == Some(Eof) then Some(UnexpectedEof) else error')
  }

  /** diskStorage.Bytes: remember the position, rewind, read everything, come back. */
  function DiskBytes(d: Disk): (Disk, Answer)
    requires DiskOk(d)
  {
    match FileSeek(|d.content|, d.pos, 0, Current)
    case None => (d, Data([], Some(BadSeek)))
    case Some(current) =>
      match FileSeek(|d.content|, current, 0, Start)
      case None => (d, Data([], Some(BadSeek)))
      case Some(start) =>
        var (data, error) := ReadFull(d.content, start, d.size);
        if error.Some? then (d.(pos := start), Data([], error))
        else match FileSeek(|d.content|, start, current, Start)
          case None => (d.(pos := start), Data([], Some(BadSeek)))
          case Some(pos) => (d.(pos := pos), Data(data, None))
  }

  function OnDisk(d: Disk, op: Op): (r: (Disk, Answer))
    requires DiskOk(d)
    ensures DiskOk(r.0)
  {
    match op
    case Read(n) =>
      if d.closed then (d, Data([], Some(StorageClosed)))
      else
        var (got, error) := FileRead(d.content, d.pos, n);
        (d.(pos := d.pos + |got|), Data(got, error))
    case Seek(offset, whence) =>
      if d.closed then (d, Position(0, Some(StorageClosed)))
      else
        (match FileSeek(|d.content|, d.pos, offset, whence)
         case Some(pos) => (d.(pos := pos), Position(pos, None))
         case None => (d, Position(0, Some(BadSeek))))
    case Bytes =>
      if d.closed then (d, Data([], Some(StorageClosed))) else DiskBytes(d)
    case Close => (d.(closed := true), Ok)
    case Size => (d, Length(d.size))
  }

  // ---------------------------------------------------------------- they agree

  predicate Same(m: Memory, d: Disk) {
    MemoryOk(m) && DiskOk(d) && d == Disk(m.data, m.pos, |m.data|, m.closed)
  }

  lemma SeeksAgree(size: int64, pos: int64, offset: int64, whence: Whence)
    requires size >= 0 && pos >= 0
    ensures ReaderSeek(size, pos, offset, whence) == FileSeek(size, pos, offset, whence)
  {
  }

  /** A seek reaches the offset from the start, from the position or from the end of the body, when that is neither
      negative nor beyond 64 bits; and fails otherwise. */
  lemma SeekReaches(size: int64, pos: int64, offset: int64, whence: Whence)
    requires size >= 0 && pos >= 0
    ensures var target := offset + match whence case Start => 0 case Current => pos case End => size;
            && ReaderSeek(size, pos, offset, whence) == FileSeek(size, pos, offset, whence)
            && (ReaderSeek(size, pos, offset, whence).Some? <==> 0 <= target <= 0x7fff_ffff_ffff_ffff)
            && (ReaderSeek(size, pos, offset, whence).Some? ==> ReaderSeek(size, pos, offset, whence).value == target)
  {
  }

  lemma ReadFullFromStart(content: seq<byte>)
    ensures ReadFull(content, 0, |content|) == (content, None)
  {
    if content != [] {
      assert Window(content, 0, |content|) == content;
      assert content + [] == content;
    }
  }

  /** diskStorage.Bytes returns the whole body and leaves the read position where it was. */
  lemma DiskBytesIsTransparent(d: Disk)
    requires DiskOk(d)
    ensures DiskBytes(d) == (d, Data(d.content, None))
  {
    ReadFullFromStart(d.content);
  }

  /** One call gives the same answer and the same next state, with one exception: a read into
      an empty buffer at or behind the end of the body. */
  lemma StepAgreesIff(m: Memory, d: Disk, op: Op)
    requires Same(m, d)
    ensures Same(OnMemory(m, op).0, OnDisk(d, op).0)
    ensures OnMemory(m, op).1 == OnDisk(d, op).1 <==>
            !(op == Read(0) && !m.closed && m.pos >= |m.data|)
  {
    match op
    case Seek(offset, whence) => SeeksAgree(|m.data|, m.pos, offset, whence);
    case Bytes => if !d.closed { DiskBytesIsTransparent(d); }
    case _ =>
  }

  function PlayMemory(m: Memory, ops: seq<Op>): seq<Answer>
    requires MemoryOk(m)
    decreases |ops|
  {
    if ops == [] then []
    else
      var (m', answer) := OnMemory(m, ops[0]);
      [answer] + PlayMemory(m', ops[1..])
  }

  function PlayDisk(d: Disk, ops: seq<Op>): seq<Answer>
    requires DiskOk(d)
    decreases |ops|
  {
    if ops == [] then []
    else
      var (d', answer) := OnDisk(d, ops[0]);
      [answer] + PlayDisk(d', ops[1..])
  }

  /** Some call of the run reads into an empty buffer while the storage is open and read to its end. */
  predicate ReadsEmptyAtEnd(m: Memory, ops: seq<Op>)
    requires MemoryOk(m)
    decreases |ops|
  {
    && ops != []
    && ((ops[0] == Read(0) && !m.closed && m.pos >= |m.data|) || ReadsEmptyAtEnd(OnMemory(m, ops[0]).0, ops[1..]))
  }

  /** A run of calls gives the same answers on both back ends if and only if it contains no such call; in
      particular when it reads into non-empty buffers only. */
  lemma {:induction false} RunsAgreeIff(m: Memory, d: Disk, ops: seq<Op>)
    requires Same(m, d)
    ensures PlayMemory(m, ops) == PlayDisk(d, ops) <==> !ReadsEmptyAtEnd(m, ops)
    ensures (forall i :: 0 <= i < |ops| ==> ops[i] != Read(0)) ==> !ReadsEmptyAtEnd(m, ops)
    decreases |ops|
  {
    if ops != [] {
      var (m', a) := OnMemory(m, ops[0]);
      var (d', b) := OnDisk(d, ops[0]);
      StepAgreesIff(m, d, ops[0]);
      RunsAgreeIff(m', d', ops[1..]);
      assert PlayMemory(m, ops)[0] == a && PlayMemory(m, ops)[1..] == PlayMemory(m', ops[1..]);
      assert PlayDisk(d, ops)[0] == b && PlayDisk(d, ops)[1..] == PlayDisk(d', ops[1..]);
    }
  }

  predicate RefusesClosed(answer: Answer) {
    answer == Data([], Some(StorageClosed)) || answer == Position(0, Some(StorageClosed))
  }

  /** After Close, reads, seeks and Bytes fail on both back ends in every continuation. */
  lemma {:induction false} UseAfterCloseFails(m: Memory, d: Disk, ops: seq<Op>, i: nat)
    requires MemoryOk(m) && DiskOk(d) && m.closed && d.closed && i < |ops|
    requires !ops[i].Close? && !ops[i].Size?
    ensures i < |PlayMemory(m, ops)| && RefusesClosed(PlayMemory(m, ops)[i])
    ensures i < |PlayDisk(d, ops)| && RefusesClosed(PlayDisk(d, ops)[i])
    decreases |ops|
  {
    if i > 0 { UseAfterCloseFails(OnMemory(m, ops[0]).0, OnDisk(d, ops[0]).0, ops[1..], i - 1); }
  }

  function Delivered(m: Memory, chunks: seq<nat>): seq<byte>
    requires MemoryOk(m)
    decreases |chunks|
  {
    if chunks == [] then []
    else
      var (m', answer) := OnMemory(m, Read(chunks[0]));
      answer.bytes + Delivered(m', chunks[1..])
  }

  function DeliveredByDisk(d: Disk, chunks: seq<nat>): seq<byte>
    requires DiskOk(d)
    decreases |chunks|
  {
    if chunks == [] then []
    else
      var (d', answer) := OnDisk(d, Read(chunks[0]));
      answer.bytes + DeliveredByDisk(d', chunks[1..])
  }

  function Sum(chunks: seq<nat>): nat {
    if chunks == [] then 0 else chunks[0] + Sum(chunks[1..])
  }

  /** What is left to read, at most `n` bytes of it. */
  function Rest(m: Memory, n: nat): seq<byte>
    requires MemoryOk(m)
  {
    if m.closed || m.pos >= |m.data| then [] else Window(m.data, m.pos, n)
  }

  lemma ReadSplitsRest(m: Memory, n: nat, more: nat)
    requires MemoryOk(m)
    ensures var (m', answer) := OnMemory(m, Read(n));
            Rest(m, n + more) == answer.bytes + Rest(m', more)
  {
  }

  lemma ReadsGiveSameBytes(m: Memory, d: Disk, n: nat)
    requires Same(m, d)
    ensures OnMemory(m, Read(n)).1.bytes == OnDisk(d, Read(n)).1.bytes
  {
  }

  /** Reading in chunks of any sizes, on either back end, returns the body from the read position on, up to the sum of
      the sizes; and nothing once the storage is closed. */
  lemma {:induction false} ReadsDeliverTheBody(m: Memory, d: Disk, chunks: seq<nat>)
    requires Same(m, d)
    ensures Delivered(m, chunks) == Rest(m, Sum(chunks))
    ensures DeliveredByDisk(d, chunks) == Rest(m, Sum(chunks))
    decreases |chunks|
  {
    if chunks != [] {
      StepAgreesIff(m, d, Read(chunks[0]));
      ReadsGiveSameBytes(m, d, chunks[0]);
      ReadSplitsRest(m, chunks[0], Sum(chunks[1..]));
      ReadsDeliverTheBody(OnMemory(m, Read(chunks[0])).0, OnDisk(d, Read(chunks[0])).0, chunks[1..]);
    }
  }

  lemma SeekMoves(m: Memory, d: Disk, offset: int64, whence: Whence, target: int)
    requires Same(m, d) && !m.closed && 0 <= target <= |m.data|
    requires target == offset + match whence case Start => 0 case Current => m.pos case End => |m.data|
    ensures OnMemory(m, Seek(offset, whence)).0 == m.(pos := target)
    ensures Same(m.(pos := target), OnDisk(d, Seek(offset, whence)).0)
  {
    SeekReaches(|m.data|, m.pos, offset, whence);
  }

  /** Seeking and then reading delivers the body from where the seek went, on either back end. */
  lemma SeekThenReads(m: Memory, d: Disk, offset: int64, whence: Whence, target: int, chunks: seq<nat>)
    requires Same(m, d) && !m.closed && 0 <= target <= |m.data|
    requires target == offset + match whence case Start => 0 case Current => m.pos case End => |m.data|
    ensures var bytes := m.data[target..Min(target + Sum(chunks), |m.data|)];
            && Delivered(OnMemory(m, Seek(offset, whence)).0, chunks) == bytes
            && DeliveredByDisk(OnDisk(d, Seek(offset, whence)).0, chunks) == bytes
  {
    SeekMoves(m, d, offset, whence, target);
    ReadsDeliverTheBody(m.(pos := target), OnDisk(d, Seek(offset, whence)).0, chunks);
  }

  // ---------------------------------------------------------------- the objects

  /** The four usage counters of common/disk_cache_config.go. */
  class Stats {
    var diskFiles: int
    var diskBytes: int
    var memoryBuffers: int
    var memoryBytes: int

    method IncrementDiskFiles(size: int)
      modifies this
      ensures diskFiles == old(diskFiles) + 1 && diskBytes == old(diskBytes) + size
      ensures memoryBuffers == old(memoryBuffers) && memoryBytes == old(memoryBytes)
    {
      diskFiles := diskFiles + 1;
      diskBytes := diskBytes + size;
    }

    /** Both counters are clamped at zero. */
    method DecrementDiskFiles(size: int)
      modifies this
      ensures diskFiles == Max(old(diskFiles) - 1, 0) && diskBytes == Max(old(diskBytes) - size, 0)
      ensures memoryBuffers == old(memoryBuffers) && memoryBytes == old(memoryBytes)
    {
      diskFiles := diskFiles - 1;
      if diskFiles < 0 {
        diskFiles := 0;
      }
      diskBytes := diskBytes - size;
      if diskBytes < 0 {
        diskBytes := 0;
      }
    }

    method IncrementMemoryBuffers(size: int)
      modifies this
      ensures memoryBuffers == old(memoryBuffers) + 1 && memoryBytes == old(memoryBytes) + size
      ensures diskFiles == old(diskFiles) && diskBytes == old(diskBytes)
    {
      memoryBuffers := memoryBuffers + 1;
      memoryBytes := memoryBytes + size;
    }

    method DecrementMemoryBuffers(size: int)
      modifies this
      ensures memoryBuffers == old(memoryBuffers) - 1 && memoryBytes == old(memoryBytes) - size
      ensures diskFiles == old(diskFiles) && diskBytes == old(diskBytes)
    {
      memoryBuffers := memoryBuffers - 1;
      memoryBytes := memoryBytes - size;
    }
  }

  class MemoryStorage {
    const stats: Stats
    const data: seq<byte>
    var pos: int64
    var closed: bool

    ghost predicate Valid()
      reads this
    {
      MemoryOk(View())
    }

    ghost function View(): Memory
      reads this
    {
      Memory(data, pos, closed)
    }

    constructor (stats: Stats, data: seq<byte>)
      requires |data| <= MAX_INT64
      modifies stats
      ensures Valid() && View() == Memory(data, 0, false) && this.stats == stats
      ensures stats.memoryBuffers == old(stats.memoryBuffers) + 1
      ensures stats.memoryBytes == old(stats.memoryBytes) + |data|
      ensures stats.diskFiles == old(stats.diskFiles) && stats.diskBytes == old(stats.diskBytes)
    {
      this.stats, this.data, this.pos, this.closed := stats, data, 0, false;
      new;
      stats.IncrementMemoryBuffers(|data|);
    }

    method Read(n: nat) returns (got: seq<byte>, error: Option<Error>)
      requires Valid()
      modifies this
      ensures (View(), Data(got, error)) == OnMemory(old(View()), Op.Read(n))
    {
      if closed {
        return [], Some(StorageClosed);
      }
      var r := ReaderRead(data, pos, n);
      got, error := r.0, r.1;
      pos := pos + |got|;
    }

    method Seek(offset: int64, whence: Whence) returns (at: int64, error: Option<Error>)
      requires Valid()
      modifies this
      ensures (View(), Position(at, error)) == OnMemory(old(View()), Op.Seek(offset, whence))
    {
      if closed {
        return 0, Some(StorageClosed);
      }
      var target := ReaderSeek(|data|, pos, offset, whence);
      if target.None? {
        return 0, Some(BadSeek);
      }
      pos := target.value;
      return pos, None;
    }

    method Bytes() returns (all: seq<byte>, error: Option<Error>)
      requires Valid()
      ensures (View(), Data(all, error)) == OnMemory(View(), Op.Bytes)
    {
      if closed {
        return [], Some(StorageClosed);
      }
      return data, None;
    }

    /** The counters move only on the first Close. */
    method Close()
      requires Valid()
      modifies this, stats
      ensures View() == OnMemory(old(View()), Op.Close).0 && Valid()
      ensures stats.memoryBuffers == old(stats.memoryBuffers) - (if old(closed) then 0 else 1)
      ensures stats.memoryBytes == old(stats.memoryBytes) - (if old(closed) then 0 else |data|)
      ensures stats.diskFiles == old(stats.diskFiles) && stats.diskBytes == old(stats.diskBytes)
    {
      if !closed {
        closed := true;
        stats.DecrementMemoryBuffers(|data|);
      }
    }
  }

  class DiskStorage {
    const stats: Stats
    const content: seq<byte>
    const size: int64
    var pos: int64
    var closed: bool

    ghost predicate Valid()
      reads this
    {
      DiskOk(View())
    }

    ghost function View(): Disk
      reads this
    {
      Disk(content, pos, size, closed)
    }

    constructor (stats: Stats, data: seq<byte>)
      requires |data| <= MAX_INT64
      modifies stats
      ensures Valid() && View() == Disk(data, 0, |data|, false) && this.stats == stats
      ensures stats.diskFiles == old(stats.diskFiles) + 1
      ensures stats.diskBytes == old(stats.diskBytes) + |data|
      ensures stats.memoryBuffers == old(stats.memoryBuffers) && stats.memoryBytes == old(stats.memoryBytes)
    {
      this.stats, this.content, this.size, this.pos, this.closed := stats, data, |data|, 0, false;
      new;
      stats.IncrementDiskFiles(|data|);
    }

    method Read(n: nat) returns (got: seq<byte>, error: Option<Error>)
      requires Valid()
      modifies this
      ensures (View(), Data(got, error)) == OnDisk(old(View()), Op.Read(n))
    {
      if closed {
        return [], Some(StorageClosed);
      }
      var r := FileRead(content, pos, n);
      got, error := r.0, r.1;
      pos := pos + |got|;
    }

    method Seek(offset: int64, whence: Whence) returns (at: int64, error: Option<Error>)
      requires Valid()
      modifies this
      ensures (View(), Position(at, error)) == OnDisk(old(View()), Op.Seek(offset, whence))
    {
      if closed {
        return 0, Some(StorageClosed);
      }
      var target := FileSeek(|content|, pos, offset, whence);
      if target.None? {
        return 0, Some(BadSeek);
      }
      pos := target.value;
      return pos, None;
    }

    method Bytes() returns (all: seq<byte>, error: Option<Error>)
      requires Valid()
      modifies this
      ensures (View(), Data(all, error)) == OnDisk(old(View()), Op.Bytes)
      ensures !closed ==> all == content && error == None && pos == old(pos)
    {
      if closed {
        return [], Some(StorageClosed);
      }
      DiskBytesIsTransparent(View());
      ReadFullFromStart(content);
      var current := FileSeek(|content|, pos, 0, Current);
      if current.None? {
        return [], Some(BadSeek);
      }
      pos := 0;
      all := [];
      while |all| < size
        invariant 0 <= pos == |all| <= |content| && all == content[..pos]
        invariant View() == old(View()).(pos := pos)
      {
        var (got, failure) := FileRead(content, pos, size - |all|);
        pos := pos + |got|;
        all := all + got;
        if failure.Some? {
          return [], Some(UnexpectedEof);
        }
      }
      assert all == content;
      pos := current.value;
      error := None;
    }

    /** The counters move only on the first Close. */
    method Close()
      requires Valid()
      modifies this, stats
      ensures View() == OnDisk(old(View()), Op.Close).0 && Valid()
      ensures old(closed) ==> stats.diskFiles == old(stats.diskFiles) && stats.diskBytes == old(stats.diskBytes)
      ensures !old(closed) ==>
                && stats.diskFiles == Max(old(stats.diskFiles) - 1, 0)
                && stats.diskBytes == Max(old(stats.diskBytes) - size, 0)
      ensures stats.memoryBuffers == old(stats.memoryBuffers) && stats.memoryBytes == old(stats.memoryBytes)
    {
      if !closed {
        closed := true;
        stats.DecrementDiskFiles(size);
      }
    }
  }
}
