/** Request-body storage: one payload kept in memory or in a cache file, behind the same interface,
    with global usage counters. Both implementations refine one object: a content, a cursor and a
    closed flag. */
module BodyStorage {

  import opened Wrappers

  datatype Error = StorageClosed | EndOfFile | NegativePosition | TooLarge | DiskFailed | ReaderFailed

  datatype Whence = FromStart | FromCurrent | FromEnd

  // ----- the object both implementations refine -----

  datatype Body = Body(content: seq<byte>, cursor: nat, closed: bool)

  function Min(a: int, b: int): int {
    if a < b then a else b
  }

  /** Reading into a buffer of `n` bytes; `emptyAtEnd` is what a read with an empty buffer says once
      nothing is left. */
  function ReadBody(b: Body, n: nat, emptyAtEnd: Option<Error>): (Body, seq<byte>, Option<Error>) {
    if b.closed then (b, [], Some(StorageClosed))
    else if b.cursor >= |b.content| then (b, [], if n == 0 then emptyAtEnd else Some(EndOfFile))
    else
      var end := Min(b.cursor + n, |b.content|);
      (b.(cursor := end), b.content[b.cursor..end], None)
  }

  function SeekBody(b: Body, offset: int, whence: Whence): (Body, int, Option<Error>) {
    if b.closed then (b, 0, Some(StorageClosed))
    else
      var to := offset + match whence case FromStart => 0 case FromCurrent => b.cursor case FromEnd => |b.content|;
      if to < 0 then (b, 0, Some(NegativePosition)) else (b.(cursor := to), to, None)
  }

  function BytesOf(b: Body): Option<seq<byte>> {
    if b.closed then None else Some(b.content)
  }

  /** A read from an open body takes the next bytes, as many as fit, and moves behind them; it fails only at the end,
      and a closed body gives nothing. */
  lemma ReadsNext(b: Body, n: nat, emptyAtEnd: Option<Error>)
    ensures var (after, p, err) := ReadBody(b, n, emptyAtEnd);
            var left := if b.cursor < |b.content| then |b.content| - b.cursor else 0;
            if b.closed then after == b && p == [] && err == Some(StorageClosed)
            else
              && after == Body(b.content, b.cursor + |p|, false)
              && |p| == (if n <= left then n else left)
              && (forall i :: 0 <= i < |p| ==> p[i] == b.content[b.cursor + i])
              && err == (if left > 0 then None else if n > 0 then Some(EndOfFile) else emptyAtEnd)
  {
  }

  /** Seeking counts from the start, the cursor or the end; a position before the start is refused. */
  lemma SeeksTo(b: Body, offset: int, whence: Whence)
    ensures var (after, at, err) := SeekBody(b, offset, whence);
            var from := if whence == FromCurrent then b.cursor else if whence == FromEnd then |b.content| else 0;
            if b.closed then after == b && at == 0 && err == Some(StorageClosed)
            else if from + offset < 0 then after == b && at == 0 && err == Some(NegativePosition)
            else after == Body(b.content, from + offset, false) && at == from + offset && err == None
    ensures BytesOf(b) == if b.closed then None else Some(b.content)
  {
  }

  // ----- readers of the standard library -----

  /** bytes.Reader: says end of file whenever nothing is left, even to an empty buffer. */
  class BytesReader {
    const data: seq<byte>
    var position: nat

    constructor (data: seq<byte>)
      ensures this.data == data && position == 0
    {
      this.data, position := data, 0;
    }

    method Read(n: nat) returns (p: seq<byte>, err: Option<Error>)
      modifies this
      ensures (Body(data, position, false), p, err) == ReadBody(Body(data, old(position), false), n, Some(EndOfFile))
    {
      if position >= |data| {
        return [], Some(EndOfFile);
      }
      var end := if position + n < |data| then position + n else |data|;
      p, err := data[position..end], None;
      position := end;
    }

    method Seek(offset: int, whence: Whence) returns (at: int, err: Option<Error>)
      modifies this
      ensures (Body(data, position, false), at, err) == SeekBody(Body(data, old(position), false), offset, whence)
    {
      at := match whence
        case FromStart => offset
        case FromCurrent => position + offset
        case FromEnd => |data| + offset;
      if at < 0 {
        return 0, Some(NegativePosition);
      }
      position := at;
      err := None;
    }
  }

  /** An open descriptor of a cache file: an empty read always succeeds. The file keeps its bytes for
      every descriptor opened before it is removed. */
  class FileHandle {
    const bytes: seq<byte>
    var position: nat

    constructor (bytes: seq<byte>)
      ensures this.bytes == bytes && position == 0
    {
      this.bytes, position := bytes, 0;
    }

    method Read(n: nat) returns (p: seq<byte>, err: Option<Error>)
      modifies this
      ensures (Body(bytes, position, false), p, err) == ReadBody(Body(bytes, old(position), false), n, None)
    {
      if n == 0 {
        assert position < |bytes| ==> bytes[position..position] == [];
        return [], None;
      }
      if position >= |bytes| {
        return [], Some(EndOfFile);
      }
      var end := if position + n < |bytes| then position + n else |bytes|;
      p, err := bytes[position..end], None;
      position := end;
    }

    method Seek(offset: int, whence: Whence) returns (at: int, err: Option<Error>)
      modifies this
      ensures (Body(bytes, position, false), at, err) == SeekBody(Body(bytes, old(position), false), offset, whence)
    {
      at := match whence
        case FromStart => offset
        case FromCurrent => position + offset
        case FromEnd => |bytes| + offset;
      if at < 0 {
        return 0, Some(NegativePosition);
      }
      position := at;
      err := None;
    }
  }

  // ----- the global counters -----

  datatype Counters = Counters(diskFiles: int, diskBytes: int, memoryBuffers: int, memoryBytes: int)

  function DiskAdded(c: Counters, size: nat): Counters {
    c.(diskFiles := c.diskFiles + 1, diskBytes := c.diskBytes + size)
  }

  function DiskRemoved(c: Counters, size: nat): Counters {
    c.(diskFiles := if c.diskFiles - 1 < 0 then 0 else c.diskFiles - 1,
       diskBytes := if c.diskBytes - size < 0 then 0 else c.diskBytes - size)
  }

  function MemoryAdded(c: Counters, size: nat): Counters {
    c.(memoryBuffers := c.memoryBuffers + 1, memoryBytes := c.memoryBytes + size)
  }

  function MemoryRemoved(c: Counters, size: nat): Counters {
    c.(memoryBuffers := c.memoryBuffers - 1, memoryBytes := c.memoryBytes - size)
  }

  /** What is removed after it was added leaves the counters as they were, and counters of files never turn negative. */
  lemma CountersComeBack(c: Counters, size: nat)
    ensures c.diskFiles >= 0 && c.diskBytes >= 0 ==> DiskRemoved(DiskAdded(c, size), size) == c
    ensures MemoryRemoved(MemoryAdded(c, size), size) == c
    ensures DiskRemoved(c, size).diskFiles == (if c.diskFiles >= 1 then c.diskFiles - 1 else 0)
    ensures DiskRemoved(c, size).diskBytes == (if c.diskBytes >= size then c.diskBytes - size else 0)
    ensures DiskAdded(c, size) == Counters(c.diskFiles + 1, c.diskBytes + size, c.memoryBuffers, c.memoryBytes)
  {
  }

  class DiskCache {
    const enabled: bool
    const threshold: int
    const maxBytes: int
    var activeDiskFiles: int
    var currentDiskUsage: int
    var activeMemoryBuffers: int
    var currentMemoryUsage: int
    var diskHits: nat
    var memoryHits: nat

    constructor (enabled: bool, threshold: int, maxBytes: int)
      ensures this.enabled == enabled && this.threshold == threshold && this.maxBytes == maxBytes
      ensures Usage() == Counters(0, 0, 0, 0) && diskHits == memoryHits == 0
    {
      this.enabled, this.threshold, this.maxBytes := enabled, threshold, maxBytes;
      activeDiskFiles, currentDiskUsage, activeMemoryBuffers, currentMemoryUsage := 0, 0, 0, 0;
      diskHits, memoryHits := 0, 0;
    }

    ghost function Usage(): Counters
      reads this
    {
      Counters(activeDiskFiles, currentDiskUsage, activeMemoryBuffers, currentMemoryUsage)
    }

    method IncrementDiskFiles(size: nat)
      modifies this`activeDiskFiles, this`currentDiskUsage
      ensures Usage() == DiskAdded(old(Usage()), size)
    {
      activeDiskFiles := activeDiskFiles + 1;
      currentDiskUsage := currentDiskUsage + size;
    }

    method DecrementDiskFiles(size: nat)
      modifies this`activeDiskFiles, this`currentDiskUsage
      ensures Usage() == DiskRemoved(old(Usage()), size)
    {
      activeDiskFiles := activeDiskFiles - 1;
      if activeDiskFiles < 0 {
        activeDiskFiles := 0;
      }
      currentDiskUsage := currentDiskUsage - size;
      if currentDiskUsage < 0 {
        currentDiskUsage := 0;
      }
    }

    method IncrementMemoryBuffers(size: nat)
      modifies this`activeMemoryBuffers, this`currentMemoryUsage
      ensures Usage() == MemoryAdded(old(Usage()), size)
    {
      activeMemoryBuffers := activeMemoryBuffers + 1;
      currentMemoryUsage := currentMemoryUsage + size;
    }

    method DecrementMemoryBuffers(size: nat)
      modifies this`activeMemoryBuffers, this`currentMemoryUsage
      ensures Usage() == MemoryRemoved(old(Usage()), size)
    {
      activeMemoryBuffers := activeMemoryBuffers - 1;
      currentMemoryUsage := currentMemoryUsage - size;
    }

    function IsDiskCacheAvailable(requestSize: int): bool
      reads this
    {
      enabled && currentDiskUsage + requestSize <= maxBytes
    }
  }

  // ----- the two storages -----

  class MemoryStorage {
    const cache: DiskCache
    const data: seq<byte>
    const reader: BytesReader
    const size: nat
    var closed: bool

    ghost predicate Valid() {
      reader.data == data && size == |data|
    }

    ghost function Contents(): Body
      reads this, reader
    {
      Body(data, reader.position, closed)
    }

    constructor (data: seq<byte>, cache: DiskCache)
      modifies cache`activeMemoryBuffers, cache`currentMemoryUsage
      ensures Valid() && Contents() == Body(data, 0, false) && fresh(reader) && this.cache == cache
      ensures cache.Usage() == MemoryAdded(old(cache.Usage()), |data|)
    {
      this.cache, this.data, size, closed := cache, data, |data|, false;
      reader := new BytesReader(data);
      new;
      cache.IncrementMemoryBuffers(|data|);
    }

    method Read(n: nat) returns (p: seq<byte>, err: Option<Error>)
      requires Valid()
      modifies reader
      ensures (Contents(), p, err) == ReadBody(old(Contents()), n, Some(EndOfFile))
    {
      if closed {
        return [], Some(StorageClosed);
      }
      p, err := reader.Read(n);
    }

    method Seek(offset: int, whence: Whence) returns (at: int, err: Option<Error>)
      requires Valid()
      modifies reader
      ensures (Contents(), at, err) == SeekBody(old(Contents()), offset, whence)
    {
      if closed {
        return 0, Some(StorageClosed);
      }
      at, err := reader.Seek(offset, whence);
    }

    method Close()
      requires Valid()
      modifies this, cache`activeMemoryBuffers, cache`currentMemoryUsage
      ensures Contents() == old(Contents()).(closed := true)
      ensures cache.Usage() == if old(closed) then old(cache.Usage()) else MemoryRemoved(old(cache.Usage()), |data|)
    {
      if !closed {
        closed := true;
        cache.DecrementMemoryBuffers(size);
      }
    }

    method Bytes() returns (all: Option<seq<byte>>)
      requires Valid()
      ensures all == BytesOf(Contents())
    {
      if closed {
        return None;
      }
      all := Some(data);
    }

    /** The new reader starts at the beginning and shares no cursor with the storage. */
    method NewReader() returns (r: BytesReader?)
      requires Valid()
      ensures (r == null) == closed
      ensures r != null ==> fresh(r) && r.data == data && r.position == 0
    {
      if closed {
        return null;
      }
      r := new BytesReader(data);
    }
  }

  class DiskStorage {
    const cache: DiskCache
    const file: FileHandle
    const size: nat
    var closed: bool

    ghost predicate Valid() {
      size == |file.bytes|
    }

    ghost function Contents(): Body
      reads this, file
    {
      Body(file.bytes, file.position, closed)
    }

    constructor (data: seq<byte>, cache: DiskCache)
      modifies cache`activeDiskFiles, cache`currentDiskUsage
      ensures Valid() && Contents() == Body(data, 0, false) && fresh(file) && this.cache == cache
      ensures cache.Usage() == DiskAdded(old(cache.Usage()), |data|)
    {
      this.cache, size, closed := cache, |data|, false;
      file := new FileHandle(data);
      new;
      cache.IncrementDiskFiles(|data|);
    }

    method Read(n: nat) returns (p: seq<byte>, err: Option<Error>)
      requires Valid()
      modifies file
      ensures (Contents(), p, err) == ReadBody(old(Contents()), n, None)
    {
      if closed {
        return [], Some(StorageClosed);
      }
      p, err := file.Read(n);
    }

    method Seek(offset: int, whence: Whence) returns (at: int, err: Option<Error>)
      requires Valid()
      modifies file
      ensures (Contents(), at, err) == SeekBody(old(Contents()), offset, whence)
    {
      if closed {
        return 0, Some(StorageClosed);
      }
      at, err := file.Seek(offset, whence);
    }

    method Close()
      requires Valid()
      modifies this, cache`activeDiskFiles, cache`currentDiskUsage
      ensures Contents() == old(Contents()).(closed := true)
      ensures cache.Usage() == if old(closed) then old(cache.Usage()) else DiskRemoved(old(cache.Usage()), |file.bytes|)
    {
      if !closed {
        closed := true;
        cache.DecrementDiskFiles(size);
      }
    }

    /** Reads the file from its start through the shared descriptor and puts the cursor back. */
    method Bytes() returns (all: Option<seq<byte>>)
      requires Valid()
      modifies file
      ensures all == BytesOf(old(Contents())) && Contents() == old(Contents())
    {
      if closed {
        return None;
      }
      var currentPos, err := file.Seek(0, FromCurrent);
      if err.Some? {
        return None;
      }
      var at;
      at, err := file.Seek(0, FromStart);
      if err.Some? {
        return None;
      }
      var data;
      data, err := file.Read(size);
      assert file.bytes[0..size] == file.bytes;
      if |data| < size {
        return None;
      }
      at, err := file.Seek(currentPos, FromStart);
      if err.Some? {
        return None;
      }
      all := Some(data);
    }

    /** A second descriptor of the same file: its own cursor, usable after the storage is closed. */
    method NewReader() returns (r: FileHandle?)
      requires Valid()
      ensures (r == null) == closed
      ensures r != null ==> fresh(r) && r.bytes == file.bytes && r.position == 0
    {
      if closed {
        return null;
      }
      r := new FileHandle(file.bytes);
    }
  }

  // ----- the two agree -----

  /** `ReadFrom` reads from the i-th reader that was opened. */
  datatype Op = Read(n: nat) | Seek(offset: int, whence: Whence) | Bytes | OpenReader | ReadFrom(i: nat, n: nat) | Close

  datatype Outcome =
    | Got(p: seq<byte>, err: Option<Error>)
    | Moved(at: int, err: Option<Error>)
    | All(bytes: Option<seq<byte>>)
    | Opened(ok: bool)
    | NoReader
    | Closed

  /** A storage with the cursors of the readers opened on it. */
  datatype Session = Session(body: Body, readers: seq<nat>)

  /** What an operation answers and leaves behind. A reader has its own cursor and outlives the storage. */
  function Answer(s: Session, op: Op, emptyAtEnd: Option<Error>): (Session, Outcome) {
    match op
    case Read(n) =>
      var (after, p, err) := ReadBody(s.body, n, emptyAtEnd);
      (s.(body := after), Got(p, err))
    case Seek(offset, whence) =>
      var (after, at, err) := SeekBody(s.body, offset, whence);
      (s.(body := after), Moved(at, err))
    case Bytes => (s, All(BytesOf(s.body)))
    case OpenReader => if s.body.closed then (s, Opened(false)) else (s.(readers := s.readers + [0]), Opened(true))
    case ReadFrom(i, n) =>
      if i >= |s.readers| then (s, NoReader)
      else
        var (after, p, err) := ReadBody(Body(s.body.content, s.readers[i], false), n, emptyAtEnd);
        (s.(readers := s.readers[i := after.cursor]), Got(p, err))
    case Close => (s.(body := s.body.(closed := true)), Closed)
  }

  function Answers(s: Session, ops: seq<Op>, emptyAtEnd: Option<Error>): (Session, seq<Outcome>) {
    if ops == [] then (s, [])
    else
      var (front, outcomes) := Answers(s, ops[..|ops| - 1], emptyAtEnd);
      var (after, outcome) := Answer(front, ops[|ops| - 1], emptyAtEnd);
      (after, outcomes + [outcome])
  }

  ghost function BufferCursors(readers: seq<BytesReader>): seq<nat>
    reads readers
  {
    seq(|readers|, i requires 0 <= i < |readers| reads readers => readers[i].position)
  }

  method StepMemory(m: MemoryStorage, readers: seq<BytesReader>, op: Op)
    returns (outcome: Outcome, more: seq<BytesReader>)
    requires m.Valid() && m.reader !in readers
    requires forall i :: 0 <= i < |readers| ==> readers[i].data == m.data
    requires forall i, j :: 0 <= i < j < |readers| ==> readers[i] != readers[j]
    modifies m, m.reader, m.cache, readers
    ensures (Session(m.Contents(), BufferCursors(more)), outcome) ==
            Answer(old(Session(m.Contents(), BufferCursors(readers))), op, Some(EndOfFile))
    ensures more == readers || (|more| > 0 && fresh(more[|more| - 1]) && more == readers + [more[|more| - 1]])
    ensures m.reader !in more && forall i :: 0 <= i < |more| ==> more[i].data == m.data
    ensures forall i, j :: 0 <= i < j < |more| ==> more[i] != more[j]
  {
    more := readers;
    match op {
      case Read(n) =>
        var p, err := m.Read(n);
        outcome := Got(p, err);
      case Seek(offset, whence) =>
        var at, err := m.Seek(offset, whence);
        outcome := Moved(at, err);
      case Bytes =>
        var all := m.Bytes();
        outcome := All(all);
      case OpenReader =>
        var r := m.NewReader();
        if r != null {
          more := readers + [r];
          assert BufferCursors(more) == old(BufferCursors(readers)) + [0];
        }
        outcome := Opened(r != null);
      case ReadFrom(i, n) =>
        if i >= |readers| {
          outcome := NoReader;
        } else {
          var p, err := readers[i].Read(n);
          outcome := Got(p, err);
          assert BufferCursors(more) == old(BufferCursors(readers))[i := readers[i].position];
        }
      case Close =>
        m.Close();
        outcome := Closed;
    }
  }

  /** Any operations on a memory storage and the readers opened on it. */
  method RunMemory(m: MemoryStorage, ops: seq<Op>) returns (outcomes: seq<Outcome>, readers: seq<BytesReader>)
    requires m.Valid()
    modifies m, m.reader, m.cache
    ensures (Session(m.Contents(), BufferCursors(readers)), outcomes) ==
            Answers(Session(old(m.Contents()), []), ops, Some(EndOfFile))
  {
    outcomes, readers := [], [];
    assert BufferCursors(readers) == [] && ops[..0] == [];
    for i := 0 to |ops|
      invariant m.reader !in readers
      invariant forall k :: 0 <= k < |readers| ==> readers[k].data == m.data && fresh(readers[k])
      invariant forall k, l :: 0 <= k < l < |readers| ==> readers[k] != readers[l]
      invariant (Session(m.Contents(), BufferCursors(readers)), outcomes) ==
                Answers(Session(old(m.Contents()), []), ops[..i], Some(EndOfFile))
    {
      hide Answer;
      assert ops[..i + 1][..i] == ops[..i];
      var outcome;
      outcome, readers := StepMemory(m, readers, ops[i]);
      outcomes := outcomes + [outcome];
    }
    assert ops[..|ops|] == ops;
  }

  ghost function FileCursors(readers: seq<FileHandle>): seq<nat>
    reads readers
  {
    seq(|readers|, i requires 0 <= i < |readers| reads readers => readers[i].position)
  }

  method StepDisk(d: DiskStorage, readers: seq<FileHandle>, op: Op)
    returns (outcome: Outcome, more: seq<FileHandle>)
    requires d.Valid() && d.file !in readers
    requires forall i :: 0 <= i < |readers| ==> readers[i].bytes == d.file.bytes
    requires forall i, j :: 0 <= i < j < |readers| ==> readers[i] != readers[j]
    modifies d, d.file, d.cache, readers
    ensures (Session(d.Contents(), FileCursors(more)), outcome) ==
            Answer(old(Session(d.Contents(), FileCursors(readers))), op, None)
    ensures more == readers || (|more| > 0 && fresh(more[|more| - 1]) && more == readers + [more[|more| - 1]])
    ensures d.file !in more && forall i :: 0 <= i < |more| ==> more[i].bytes == d.file.bytes
    ensures forall i, j :: 0 <= i < j < |more| ==> more[i] != more[j]
  {
    more := readers;
    match op {
      case Read(n) =>
        var p, err := d.Read(n);
        outcome := Got(p, err);
      case Seek(offset, whence) =>
        var at, err := d.Seek(offset, whence);
        outcome := Moved(at, err);
      case Bytes =>
        var all := d.Bytes();
        outcome := All(all);
      case OpenReader =>
        var r := d.NewReader();
        if r != null {
          more := readers + [r];
          assert FileCursors(more) == old(FileCursors(readers)) + [0];
        }
        outcome := Opened(r != null);
      case ReadFrom(i, n) =>
        if i >= |readers| {
          outcome := NoReader;
        } else {
          var p, err := readers[i].Read(n);
          outcome := Got(p, err);
          assert FileCursors(more) == old(FileCursors(readers))[i := readers[i].position];
        }
      case Close =>
        d.Close();
        outcome := Closed;
    }
  }

  /** Any operations on a disk storage and the readers opened on it. */
  method RunDisk(d: DiskStorage, ops: seq<Op>) returns (outcomes: seq<Outcome>, readers: seq<FileHandle>)
    requires d.Valid()
    modifies d, d.file, d.cache
    ensures (Session(d.Contents(), FileCursors(readers)), outcomes) ==
            Answers(Session(old(d.Contents()), []), ops, None)
  {
    outcomes, readers := [], [];
    assert FileCursors(readers) == [] && ops[..0] == [];
    for i := 0 to |ops|
      invariant d.file !in readers
      invariant forall k :: 0 <= k < |readers| ==> readers[k].bytes == d.file.bytes && fresh(readers[k])
      invariant forall k, l :: 0 <= k < l < |readers| ==> readers[k] != readers[l]
      invariant (Session(d.Contents(), FileCursors(readers)), outcomes) ==
                Answers(Session(old(d.Contents()), []), ops[..i], None)
    {
      hide Answer;
      assert ops[..i + 1][..i] == ops[..i];
      var outcome;
      outcome, readers := StepDisk(d, readers, ops[i]);
      outcomes := outcomes + [outcome];
    }
    assert ops[..|ops|] == ops;
  }

  /** The bytes that came out of the i-th reader. */
  function OutOf(ops: seq<Op>, outcomes: seq<Outcome>, i: nat): seq<byte>
    requires |ops| == |outcomes|
  {
    if ops == [] then []
    else
      var last := |ops| - 1;
      var front := OutOf(ops[..last], outcomes[..last], i);
      if ops[last].ReadFrom? && ops[last].i == i && outcomes[last].Got? then front + outcomes[last].p else front
  }

  /** A reader that is open at the start yields the content from its cursor on, piece by piece and without gap or
      repetition, whatever happens to the storage and to the other readers in between. */
  lemma {:induction false} ReaderYields(s: Session, ops: seq<Op>, emptyAtEnd: Option<Error>, i: nat)
    requires i < |s.readers| && s.readers[i] <= |s.body.content|
    ensures var (after, outcomes) := Answers(s, ops, emptyAtEnd);
            && |outcomes| == |ops| && |after.readers| >= |s.readers| && after.body.content == s.body.content
            && s.readers[i] <= after.readers[i] <= |s.body.content|
            && OutOf(ops, outcomes, i) == s.body.content[s.readers[i]..after.readers[i]]
  {
    if ops != [] {
      var front, last := ops[..|ops| - 1], ops[|ops| - 1];
      ReaderYields(s, front, emptyAtEnd, i);
      var (before, outcomes) := Answers(s, front, emptyAtEnd);
      var (after, outcome) := Answer(before, last, emptyAtEnd);
      assert (outcomes + [outcome])[..|front|] == outcomes;
      OneAnswer(before, last, emptyAtEnd, i);
      hide Answer;
      if last.ReadFrom? && last.i == i {
        var content := s.body.content;
        assert content[s.readers[i]..before.readers[i]] + content[before.readers[i]..after.readers[i]] ==
               content[s.readers[i]..after.readers[i]];
      }
    }
  }

  lemma OneAnswer(s: Session, op: Op, emptyAtEnd: Option<Error>, i: nat)
    requires i < |s.readers| && s.readers[i] <= |s.body.content|
    ensures var (after, outcome) := Answer(s, op, emptyAtEnd);
            && |after.readers| >= |s.readers| && after.body.content == s.body.content
            && s.readers[i] <= after.readers[i] <= |s.body.content|
            && (if op.ReadFrom? && op.i == i
                then outcome.Got? && outcome.p == s.body.content[s.readers[i]..after.readers[i]]
                else after.readers[i] == s.readers[i])
  {
  }

  /** What each operation does to the storage and the readers: only reading and seeking move the cursor of the storage,
      only reading from a reader moves that reader, opening adds one at the start unless the storage is closed, and
      closing stops the storage but no reader. */
  lemma OperationsMean(s: Session, op: Op, emptyAtEnd: Option<Error>)
    ensures var (after, outcome) := Answer(s, op, emptyAtEnd);
            && after.body.content == s.body.content && after.body.closed == (s.body.closed || op == Close)
            && (!op.Read? && !op.Seek? ==> after.body.cursor == s.body.cursor)
            && (op.Read? || op.Seek? || op == Bytes || op == Close ==> after.readers == s.readers)
            && (op.Read? ==> var (b, p, err) := ReadBody(s.body, op.n, emptyAtEnd);
                             after.body == b && outcome == Got(p, err))
            && (op.Seek? ==> var (b, at, err) := SeekBody(s.body, op.offset, op.whence);
                             after.body == b && outcome == Moved(at, err))
            && (op == Bytes ==> outcome == All(if s.body.closed then None else Some(s.body.content)))
            && (op == OpenReader ==>
                  && outcome == Opened(!s.body.closed)
                  && after.readers == s.readers + if s.body.closed then [] else [0])
            && (op == Close ==> outcome == Closed)
            && (op.ReadFrom? ==>
                  && |after.readers| == |s.readers|
                  && (outcome == NoReader <==> op.i >= |s.readers|)
                  && (op.i < |s.readers| ==>
                        outcome.Got? && after.readers[op.i] == s.readers[op.i] + |outcome.p| &&
                        (outcome.p, outcome.err) ==
                        (var (_, p, err) := ReadBody(Body(s.body.content, s.readers[op.i], false), op.n, emptyAtEnd);
                         (p, err))))
  {
    assert s.readers + [] == s.readers;
  }

  /** The one observable difference: an empty buffer at the end of the data. */
  predicate EmptyReadAtEnd(s: Session, op: Op) {
    || (op.Read? && op.n == 0 && !s.body.closed && s.body.cursor >= |s.body.content|)
    || (op.ReadFrom? && op.n == 0 && op.i < |s.readers| && s.readers[op.i] >= |s.body.content|)
  }

  lemma OnlyEmptyReadsDiffer(s: Session, op: Op)
    ensures Answer(s, op, Some(EndOfFile)).0 == Answer(s, op, None).0
    ensures Answer(s, op, Some(EndOfFile)).1 == Answer(s, op, None).1 <==> !EmptyReadAtEnd(s, op)
  {
  }

  /** No operation of the sequence, where it stands, is such a read. */
  ghost predicate NoEmptyReads(s: Session, ops: seq<Op>) {
    ops != [] ==>
      && NoEmptyReads(s, ops[..|ops| - 1])
      && !EmptyReadAtEnd(Answers(s, ops[..|ops| - 1], None).0, ops[|ops| - 1])
  }

  lemma AppendAgrees(memory: seq<Outcome>, disk: seq<Outcome>, a: Outcome, b: Outcome)
    requires |memory| == |disk|
    ensures memory + [a] == disk + [b] <==> memory == disk && a == b
  {
    if memory + [a] == disk + [b] {
      assert (memory + [a])[..|memory|] == memory && (disk + [b])[..|disk|] == disk;
      assert (memory + [a])[|memory|] == a && (disk + [b])[|disk|] == b;
    }
  }

  /** Any sequence of operations gives the same answers on both storages exactly when none of them
      reads with an empty buffer at the end of the data; the states agree in any case. */
  lemma {:induction false} StoragesAgree(s: Session, ops: seq<Op>)
    ensures Answers(s, ops, Some(EndOfFile)).0 == Answers(s, ops, None).0
    ensures |Answers(s, ops, Some(EndOfFile)).1| == |Answers(s, ops, None).1| == |ops|
    ensures Answers(s, ops, Some(EndOfFile)).1 == Answers(s, ops, None).1 <==> NoEmptyReads(s, ops)
  {
    hide Answer, EmptyReadAtEnd;
    if ops != [] {
      var front, last := ops[..|ops| - 1], ops[|ops| - 1];
      StoragesAgree(s, front);
      var (before, disk) := Answers(s, front, None);
      OnlyEmptyReadsDiffer(before, last);
      AppendAgrees(Answers(s, front, Some(EndOfFile)).1, disk, Answer(before, last, Some(EndOfFile)).1,
                   Answer(before, last, None).1);
    }
  }

  /** That condition, read off operation by operation. */
  lemma {:induction false} NoEmptyReadsMeans(s: Session, ops: seq<Op>)
    ensures NoEmptyReads(s, ops) <==>
            forall i :: 0 <= i < |ops| ==> !EmptyReadAtEnd(Answers(s, ops[..i], None).0, ops[i])
  {
    hide EmptyReadAtEnd, Answers;
    if ops != [] {
      var front := ops[..|ops| - 1];
      NoEmptyReadsMeans(s, front);
      assert forall i :: 0 <= i < |front| ==> ops[..i] == front[..i] && ops[i] == front[i];
    }
  }

  // ----- creation -----

  datatype Storage = InMemory(memory: MemoryStorage) | OnDisk(disk: DiskStorage) | Refused(error: Error)

  /** `diskWorks` says whether a cache file can be created and written. */
  method CreateBodyStorage(data: seq<byte>, cache: DiskCache, diskWorks: bool) returns (s: Storage)
    modifies cache`activeDiskFiles, cache`currentDiskUsage, cache`activeMemoryBuffers, cache`currentMemoryUsage
    ensures s.OnDisk? <==>
              diskWorks && cache.enabled && |data| >= cache.threshold &&
              old(cache.currentDiskUsage) + |data| <= cache.maxBytes
    ensures s.OnDisk? ==> fresh(s.disk) && fresh(s.disk.file) && s.disk.Valid() && s.disk.cache == cache
                          && s.disk.Contents() == Body(data, 0, false)
                          && cache.Usage() == DiskAdded(old(cache.Usage()), |data|)
    ensures !s.OnDisk? ==> s.InMemory? && fresh(s.memory) && fresh(s.memory.reader) && s.memory.Valid()
                           && s.memory.cache == cache && s.memory.Contents() == Body(data, 0, false)
                           && cache.Usage() == MemoryAdded(old(cache.Usage()), |data|)
  {
    if cache.enabled && |data| >= cache.threshold && cache.IsDiskCacheAvailable(|data|) {
      if diskWorks {
        var disk := new DiskStorage(data, cache);
        return OnDisk(disk);
      }
    }
    var memory := new MemoryStorage(data, cache);
    s := InMemory(memory);
  }

  /** What io.LimitReader lets through. */
  function Limited(stream: seq<byte>, limit: int): seq<byte> {
    if limit <= 0 then [] else if limit <= |stream| then stream[..limit] else stream
  }

  /** Creation from a stream refuses it as too large exactly when it is longer than `maxBytes`, on either path;
      otherwise the storage holds the whole stream. A stream that breaks off (`broken`) is refused unless it was too
      large before it broke. */
  method CreateBodyStorageFromReader(stream: seq<byte>, contentLength: int, maxBytes: int, cache: DiskCache,
                                     diskWorks: bool, broken: bool)
    returns (s: Storage)
    modifies cache
    ensures s == Refused(DiskFailed) <==>
              && !diskWorks && cache.enabled && contentLength > 0 && contentLength >= cache.threshold
              && old(cache.currentDiskUsage) + contentLength <= cache.maxBytes
    ensures s != Refused(DiskFailed) ==> (s == Refused(TooLarge) <==> |stream| > maxBytes)
    ensures s != Refused(DiskFailed) ==> (s == Refused(ReaderFailed) <==> broken && |stream| <= maxBytes)
    ensures s.OnDisk? ==>
              && diskWorks && cache.enabled
              && ((contentLength > 0 && contentLength >= cache.threshold &&
                   old(cache.currentDiskUsage) + contentLength <= cache.maxBytes) ||
                  (|stream| >= cache.threshold && old(cache.currentDiskUsage) + |stream| <= cache.maxBytes))
    ensures s.InMemory? ==>
              !(diskWorks && cache.enabled && |stream| >= cache.threshold &&
                old(cache.currentDiskUsage) + |stream| <= cache.maxBytes)
    ensures cache.diskHits == old(cache.diskHits) + (if s.OnDisk? then 1 else 0)
    ensures cache.memoryHits == old(cache.memoryHits) + (if s.InMemory? then 1 else 0)
    ensures s.Refused? ==> s.error in {DiskFailed, TooLarge, ReaderFailed} && cache.Usage() == old(cache.Usage())
    ensures s.OnDisk? ==> fresh(s.disk) && s.disk.Valid() && s.disk.cache == cache
                          && s.disk.Contents() == Body(stream, 0, false)
                          && cache.Usage() == DiskAdded(old(cache.Usage()), |stream|)
    ensures s.InMemory? ==> fresh(s.memory) && s.memory.Valid() && s.memory.cache == cache
                            && s.memory.Contents() == Body(stream, 0, false)
                            && cache.Usage() == MemoryAdded(old(cache.Usage()), |stream|)
  {
    if cache.enabled && contentLength > 0 && contentLength >= cache.threshold &&
       cache.IsDiskCacheAvailable(contentLength) {
      if !diskWorks {
        return Refused(DiskFailed);
      }
      var written := Limited(stream, maxBytes + 1);
      if broken && |stream| < maxBytes + 1 {
        return Refused(ReaderFailed);
      }
      if |written| > maxBytes {
        return Refused(TooLarge);
      }
      var disk := new DiskStorage(written, cache);
      cache.diskHits := cache.diskHits + 1;
      return OnDisk(disk);
    }
    var data := Limited(stream, maxBytes + 1);
    if broken && |stream| < maxBytes + 1 {
      return Refused(ReaderFailed);
    }
    if |data| > maxBytes {
      return Refused(TooLarge);
    }
    s := CreateBodyStorage(data, cache, diskWorks);
    if s.InMemory? {
      cache.memoryHits := cache.memoryHits + 1;
    } else {
      cache.diskHits := cache.diskHits + 1;
    }
  }
}
