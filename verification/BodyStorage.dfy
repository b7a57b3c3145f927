/** Request bodies kept in memory or in a cache file.  Both kinds of storage are proved
    to behave as one cursor over the body, so that no sequence of calls can tell them
    apart; and a body read from a connection is stored whole or refused. */
module BodyStorage {
  import opened Basics

  datatype Whence = Start | Current | End

  datatype Call = Read(room: nat) | Seek(offset: int, whence: Whence) | Bytes | Size | Close

  datatype Reply = Data(data: seq<byte>) | AtEnd | At(pos: int) | NegativePosition | Count(size: int) | Done | IsClosed

  // ------------------------------------------------------------ the reference

  /** A cursor over the body. */
  datatype Cursor = Cursor(data: seq<byte>, pos: nat, closed: bool)

  function Fetch(data: seq<byte>, pos: nat, room: nat): seq<byte> {
    if pos >= |data| then [] else if pos + room <= |data| then data[pos..pos + room] else data[pos..]
  }

  function Target(c: Cursor, offset: int, whence: Whence): int {
    offset + match whence { case Start => 0 case Current => c.pos case End => |c.data| }
  }

  function Answer(c: Cursor, call: Call): Reply {
    if call.Size? then Count(|c.data|)
    else if call.Close? then Done
    else if c.closed then IsClosed
    else
      match call
      case Read(room) => if c.pos >= |c.data| then AtEnd else Data(Fetch(c.data, c.pos, room))
      case Seek(offset, whence) =>
        if Target(c, offset, whence) < 0 then NegativePosition else At(Target(c, offset, whence))
      case _ => Data(c.data)
  }

  /** Only reads and seeks move the cursor. */
  function Next(c: Cursor, call: Call): Cursor {
    if call.Close? then c.(closed := true)
    else if c.closed then c
    else if call.Read? then c.(pos := c.pos + |Fetch(c.data, c.pos, call.room)|)
    else if call.Seek? && Target(c, call.offset, call.whence) >= 0 then c.(pos := Target(c, call.offset, call.whence))
    else c
  }

  function Answers(c: Cursor, calls: seq<Call>): seq<Reply>
    decreases |calls|
  {
    if calls == [] then [] else [Answer(c, calls[0])] + Answers(Next(c, calls[0]), calls[1..])
  }

  function After(c: Cursor, calls: seq<Call>): Cursor
    decreases |calls|
  {
    if calls == [] then c else After(Next(c, calls[0]), calls[1..])
  }

  /** A read without room of an open storage at its end: a file returns no bytes there,
      memory says that it is at the end. */
  predicate EmptyReadAtEnd(c: Cursor, call: Call) {
    call == Read(0) && !c.closed && c.pos >= |c.data|
  }

  function DiskAnswer(c: Cursor, call: Call): Reply {
    if EmptyReadAtEnd(c, call) then Data([]) else Answer(c, call)
  }

  function DiskAnswers(c: Cursor, calls: seq<Call>): seq<Reply>
    decreases |calls|
  {
    if calls == [] then [] else [DiskAnswer(c, calls[0])] + DiskAnswers(Next(c, calls[0]), calls[1..])
  }

  predicate NoEmptyReadAtEnd(c: Cursor, calls: seq<Call>)
    decreases |calls|
  {
    calls == [] || (!EmptyReadAtEnd(c, calls[0]) && NoEmptyReadAtEnd(Next(c, calls[0]), calls[1..]))
  }

  /** Memory and disk answer all calls alike exactly when none is a read without room at the end. */
  lemma {:induction false} AnswersAgreeIff(c: Cursor, calls: seq<Call>)
    ensures Answers(c, calls) == DiskAnswers(c, calls) <==> NoEmptyReadAtEnd(c, calls)
    decreases |calls|
  {
    if calls != [] {
      var next := Next(c, calls[0]);
      AnswersAgreeIff(next, calls[1..]);
      var memory, disk := Answers(c, calls), DiskAnswers(c, calls);
      assert memory[0] == Answer(c, calls[0]) && disk[0] == DiskAnswer(c, calls[0]);
      assert memory[1..] == Answers(next, calls[1..]) && disk[1..] == DiskAnswers(next, calls[1..]);
    }
  }

  /** The content and, once closed, the closing last through any calls. */
  lemma {:induction false} ContentStays(c: Cursor, calls: seq<Call>)
    ensures After(c, calls).data == c.data
    ensures c.closed ==> After(c, calls).closed
    ensures After(c, calls).closed <==> c.closed || Close in calls
    decreases |calls|
  {
    if calls != [] {
      ContentStays(Next(c, calls[0]), calls[1..]);
      assert calls == [calls[0]] + calls[1..];
    }
  }

  /** What reads into buffers of these sizes return, put together. */
  function ReadOn(c: Cursor, rooms: seq<nat>): seq<byte>
    decreases |rooms|
  {
    if rooms == [] then []
    else Fetch(c.data, c.pos, rooms[0]) + ReadOn(Next(c, Read(rooms[0])), rooms[1..])
  }

  function Sum(rooms: seq<nat>): nat {
    if rooms == [] then 0 else rooms[0] + Sum(rooms[1..])
  }

  /** However the buffers are cut, reading on from the start gives the body and nothing else. */
  lemma {:induction false} ReadingGivesTheBody(c: Cursor, rooms: seq<nat>)
    requires !c.closed && c.pos <= |c.data|
    ensures ReadOn(c, rooms) == Fetch(c.data, c.pos, Sum(rooms))
    decreases |rooms|
  {
    if rooms != [] {
      ReadingGivesTheBody(Next(c, Read(rooms[0])), rooms[1..]);
      FetchSplit(c.data, c.pos, rooms[0], Sum(rooms[1..]));
    }
  }

  lemma FetchIs(data: seq<byte>, pos: nat, room: nat)
    requires pos <= |data|
    ensures var n := if room <= |data| - pos then room else |data| - pos;
            Fetch(data, pos, room) == data[pos..pos + n]
  {
  }

  lemma Rejoined(s: seq<byte>, i: nat, j: nat, k: nat)
    requires i <= j <= k <= |s|
    ensures s[i..j] + s[j..k] == s[i..k]
  {
  }

  lemma FetchSplit(data: seq<byte>, pos: nat, first: nat, second: nat)
    requires pos <= |data|
    ensures var one := Fetch(data, pos, first);
            one + Fetch(data, pos + |one|, second) == Fetch(data, pos, first + second)
  {
    var n := if first <= |data| - pos then first else |data| - pos;
    var m := if second <= |data| - pos - n then second else |data| - pos - n;
    FetchIs(data, pos, first);
    FetchIs(data, pos + n, second);
    FetchIs(data, pos, first + second);
    Rejoined(data, pos, pos + n, pos + n + m);
  }

  // ---------------------------------------------------------- the counters

  datatype Counters = Counters(diskFiles: int, diskUsage: int, memoryBuffers: int, memoryUsage: int)

  class Stats {
    var diskFiles: int
    var diskUsage: int
    var memoryBuffers: int
    var memoryUsage: int
    var diskHits: int
    var memoryHits: int

    function Value(): Counters
      reads this
    {
      Counters(diskFiles, diskUsage, memoryBuffers, memoryUsage)
    }

    method IncrementDiskFiles(size: int)
      modifies `diskFiles, `diskUsage
      ensures Value() == old(Value()).(diskFiles := old(diskFiles) + 1, diskUsage := old(diskUsage) + size)
    {
      diskFiles := diskFiles + 1;
      diskUsage := diskUsage + size;
    }

    method DecrementDiskFiles(size: int)
      modifies `diskFiles, `diskUsage
      ensures Value() == old(Value()).(diskFiles := Lowered(old(diskFiles), 1),
                                       diskUsage := Lowered(old(diskUsage), size))
    {
      diskFiles := diskFiles - 1;
      if diskFiles < 0 { diskFiles := 0; }
      diskUsage := diskUsage - size;
      if diskUsage < 0 { diskUsage := 0; }
    }

    method IncrementMemoryBuffers(size: int)
      modifies `memoryBuffers, `memoryUsage
      ensures Value() == old(Value()).(memoryBuffers := old(memoryBuffers) + 1, memoryUsage := old(memoryUsage) + size)
    {
      memoryBuffers := memoryBuffers + 1;
      memoryUsage := memoryUsage + size;
    }

    method DecrementMemoryBuffers(size: int)
      modifies `memoryBuffers, `memoryUsage
      ensures Value() == old(Value()).(memoryBuffers := old(memoryBuffers) - 1, memoryUsage := old(memoryUsage) - size)
    {
      memoryBuffers := memoryBuffers - 1;
      memoryUsage := memoryUsage - size;
    }
  }

  /** A counter taken down, not below zero. */
  function Lowered(counter: int, amount: int): int {
    if counter - amount < 0 then 0 else counter - amount
  }

  // ------------------------------------------------------- the memory storage

  class MemoryStorage {
    const data: seq<byte>
    var index: nat
    const size: int
    var closed: bool

    ghost predicate Valid()
      reads this
    {
      size == |data|
    }

    function View(): Cursor
      reads this
    {
      Cursor(data, index, closed)
    }

    constructor (data: seq<byte>, stats: Stats)
      modifies stats`memoryBuffers, stats`memoryUsage
      ensures Valid() && View() == Cursor(data, 0, false)
      ensures stats.Value() == old(stats.Value()).(memoryBuffers := old(stats.memoryBuffers) + 1,
                                                   memoryUsage := old(stats.memoryUsage) + |data|)
    {
      this.data, index, size, closed := data, 0, |data|, false;
      new;
      stats.IncrementMemoryBuffers(|data|);
    }

    method ReadInto(room: nat) returns (reply: Reply)
      requires Valid()
      modifies this
      ensures Valid() && reply == Answer(old(View()), Read(room)) && View() == Next(old(View()), Read(room))
    {
      if closed { return IsClosed; }
      if index >= |data| { return AtEnd; }
      var n := if |data| - index < room then |data| - index else room;
      reply := Data(data[index..index + n]);
      index := index + n;
    }

    method SeekTo(offset: int, whence: Whence) returns (reply: Reply)
      requires Valid()
      modifies this
      ensures Valid() && reply == Answer(old(View()), Seek(offset, whence))
              && View() == Next(old(View()), Seek(offset, whence))
    {
      if closed { return IsClosed; }
      var target: int;
      match whence {
        case Start => target := offset;
        case Current => target := index + offset;
        case End => target := |data| + offset;
      }
      if target < 0 { return NegativePosition; }
      index := target;
      reply := At(target);
    }

    method GetBytes() returns (reply: Reply)
      requires Valid()
      ensures reply == Answer(View(), Bytes)
    {
      reply := if closed then IsClosed else Data(data);
    }

    method CloseIt(stats: Stats) returns (reply: Reply)
      requires Valid()
      modifies this, stats
      ensures Valid() && reply == Done && View() == Next(old(View()), Close)
      ensures stats.Value() == if old(closed) then old(stats.Value())
              else old(stats.Value()).(memoryBuffers := old(stats.memoryBuffers) - 1,
                                       memoryUsage := old(stats.memoryUsage) - |data|)
    {
      if !closed {
        closed := true;
        stats.DecrementMemoryBuffers(size);
      }
      reply := Done;
    }
  }

  // --------------------------------------------------------- the disk storage

  /** An open file: its content and its offset. */
  class File {
    var content: seq<byte>
    var offset: nat

    constructor (content: seq<byte>)
      ensures this.content == content && offset == 0
    {
      this.content, offset := content, 0;
    }

    method ReadAt(room: nat) returns (got: seq<byte>)
      modifies this
      ensures content == old(content) && got == Fetch(content, old(offset), room) && offset == old(offset) + |got|
    {
      got := Fetch(content, offset, room);
      offset := offset + |got|;
    }

    method SeekFile(to: int, whence: Whence) returns (at: int)
      modifies this
      ensures content == old(content)
      ensures at == Target(Cursor(content, old(offset), false), to, whence)
      ensures offset == if at < 0 then old(offset) else at
    {
      match whence {
        case Start => at := to;
        case Current => at := offset + to;
        case End => at := |content| + to;
      }
      if at >= 0 { offset := at; }
    }
  }

  class DiskStorage {
    const file: File
    const size: int
    var closed: bool

    ghost predicate Valid()
      reads this, file
    {
      size == |file.content|
    }

    function View(): Cursor
      reads this, file
    {
      Cursor(file.content, file.offset, closed)
    }

    constructor (data: seq<byte>, stats: Stats)
      modifies stats`diskFiles, stats`diskUsage
      ensures Valid() && View() == Cursor(data, 0, false) && fresh(file)
      ensures stats.Value() == old(stats.Value()).(diskFiles := old(stats.diskFiles) + 1,
                                                   diskUsage := old(stats.diskUsage) + |data|)
    {
      file := new File(data);
      size, closed := |data|, false;
      new;
      stats.IncrementDiskFiles(|data|);
    }

    method ReadInto(room: nat) returns (reply: Reply)
      requires Valid()
      modifies this, file
      ensures Valid() && reply == DiskAnswer(old(View()), Read(room)) && View() == Next(old(View()), Read(room))
    {
      if closed { return IsClosed; }
      var got := file.ReadAt(room);
      reply := if |got| == 0 && room > 0 then AtEnd else Data(got);
    }

    method SeekTo(offset: int, whence: Whence) returns (reply: Reply)
      requires Valid()
      modifies this, file
      ensures Valid() && reply == Answer(old(View()), Seek(offset, whence))
              && View() == Next(old(View()), Seek(offset, whence))
    {
      if closed { return IsClosed; }
      var at := file.SeekFile(offset, whence);
      reply := if at < 0 then NegativePosition else At(at);
    }

    /** Remembers the position, reads everything from the start and goes back. */
    method GetBytes() returns (reply: Reply)
      requires Valid()
      modifies this, file
      ensures Valid() && reply == Answer(old(View()), Bytes) && View() == old(View())
    {
      if closed { return IsClosed; }
      var current := file.SeekFile(0, Current);
      var start := file.SeekFile(0, Start);
      var got := file.ReadAt(size);
      start := file.SeekFile(current, Start);
      reply := Data(got);
    }

    method CloseIt(stats: Stats) returns (reply: Reply)
      requires Valid()
      modifies this, stats
      ensures Valid() && reply == Done && View() == Next(old(View()), Close)
      ensures stats.Value() == if old(closed) then old(stats.Value())
              else old(stats.Value()).(diskFiles := Lowered(old(stats.diskFiles), 1),
                                       diskUsage := Lowered(old(stats.diskUsage), |file.content|))
    {
      if !closed {
        closed := true;
        stats.DecrementDiskFiles(size);
      }
      reply := Done;
    }
  }

  // -------------------------------------------------- neither can be told apart

  method CallMemory(m: MemoryStorage, call: Call, stats: Stats) returns (reply: Reply)
    requires m.Valid()
    modifies m, stats
    ensures m.Valid() && reply == Answer(old(m.View()), call) && m.View() == Next(old(m.View()), call)
  {
    match call {
      case Read(room) => reply := m.ReadInto(room);
      case Seek(offset, whence) => reply := m.SeekTo(offset, whence);
      case Bytes => reply := m.GetBytes();
      case Size => reply := Count(m.size);
      case Close => reply := m.CloseIt(stats);
    }
  }

  method CallDisk(d: DiskStorage, call: Call, stats: Stats) returns (reply: Reply)
    requires d.Valid()
    modifies d, d.file, stats
    ensures d.Valid() && reply == DiskAnswer(old(d.View()), call) && d.View() == Next(old(d.View()), call)
  {
    match call {
      case Read(room) => reply := d.ReadInto(room);
      case Seek(offset, whence) => reply := d.SeekTo(offset, whence);
      case Bytes => reply := d.GetBytes();
      case Size => reply := Count(d.size);
      case Close => reply := d.CloseIt(stats);
    }
  }

  /** The same calls on a memory and a disk storage in the same state leave them in the
      same state, and get the same replies unless a read without room comes at the end. */
  method Compare(m: MemoryStorage, d: DiskStorage, calls: seq<Call>, stats: Stats)
    returns (fromMemory: seq<Reply>, fromDisk: seq<Reply>)
    requires m.Valid() && d.Valid() && m.View() == d.View()
    modifies m, d, d.file, stats
    ensures fromMemory == Answers(old(m.View()), calls) && fromDisk == DiskAnswers(old(m.View()), calls)
    ensures fromMemory == fromDisk <==> NoEmptyReadAtEnd(old(m.View()), calls)
    ensures m.View() == d.View() == After(old(m.View()), calls)
  {
    fromMemory, fromDisk := [], [];
    for i := 0 to |calls|
      invariant m.Valid() && d.Valid() && m.View() == d.View()
      invariant fromMemory + Answers(m.View(), calls[i..]) == Answers(old(m.View()), calls)
      invariant fromDisk + DiskAnswers(m.View(), calls[i..]) == DiskAnswers(old(m.View()), calls)
      invariant After(m.View(), calls[i..]) == After(old(m.View()), calls)
    {
      ghost var c := m.View();
      var one := CallMemory(m, calls[i], stats);
      var two := CallDisk(d, calls[i], stats);
      AnswersNext(c, calls, i, fromMemory, fromDisk);
      fromMemory, fromDisk := fromMemory + [one], fromDisk + [two];
    }
    assert calls[|calls|..] == [];
    AnswersAgreeIff(old(m.View()), calls);
  }

  lemma AnswersNext(c: Cursor, calls: seq<Call>, i: nat, before: seq<Reply>, disk: seq<Reply>)
    requires i < |calls|
    ensures var next := Next(c, calls[i]);
            && before + Answers(c, calls[i..]) == (before + [Answer(c, calls[i])]) + Answers(next, calls[i + 1..])
            && disk + DiskAnswers(c, calls[i..])
               == (disk + [DiskAnswer(c, calls[i])]) + DiskAnswers(next, calls[i + 1..])
            && After(c, calls[i..]) == After(next, calls[i + 1..])
  {
    var rest := calls[i..];
    assert rest[0] == calls[i] && rest[1..] == calls[i + 1..];
  }

  // ----------------------------------------------------------------- creation

  datatype Config = Config(enabled: bool, thresholdMB: int, maxSizeMB: int)

  datatype Storage = Memory(m: MemoryStorage) | Disk(d: DiskStorage)

  datatype Error = TooLarge | DiskFailed

  datatype Result = Ok(storage: Storage) | Err(error: Error)

  function Megabytes(n: int): int {
    n * 0x10_0000
  }

  /** The size belongs on disk: the cache is on, the size reaches the threshold and there is room. */
  predicate BelongsOnDisk(config: Config, usage: int, size: int) {
    config.enabled && size >= Megabytes(config.thresholdMB) && usage + size <= Megabytes(config.maxSizeMB)
  }

  function ViewOf(s: Storage): Cursor
    reads if s.Memory? then {s.m} else {s.d, s.d.file}
  {
    if s.Memory? then s.m.View() else s.d.View()
  }

  /** The counters with one more open storage. */
  function Counted(c: Counters, disk: bool, size: int): Counters {
    if disk then c.(diskFiles := c.diskFiles + 1, diskUsage := c.diskUsage + size)
    else c.(memoryBuffers := c.memoryBuffers + 1, memoryUsage := c.memoryUsage + size)
  }

  /** A body already in memory: on disk if it belongs there and the disk works, else in memory. */
  method CreateBodyStorage(data: seq<byte>, config: Config, stats: Stats, diskWorks: bool) returns (s: Storage)
    modifies stats`diskFiles, stats`diskUsage, stats`memoryBuffers, stats`memoryUsage
    ensures ViewOf(s) == Cursor(data, 0, false)
    ensures if s.Memory? then fresh(s.m) && s.m.Valid() else fresh(s.d) && fresh(s.d.file) && s.d.Valid()
    ensures s.Disk? <==> diskWorks && BelongsOnDisk(config, old(stats.diskUsage), |data|)
    ensures stats.Value() == Counted(old(stats.Value()), s.Disk?, |data|)
  {
    if config.enabled && |data| >= Megabytes(config.thresholdMB)
       && stats.diskUsage + |data| <= Megabytes(config.maxSizeMB) {
      if diskWorks {
        var d := new DiskStorage(data, stats);
        return Disk(d);
      }
    }
    var m := new MemoryStorage(data, stats);
    s := Memory(m);
  }

  const MAX_INT64 := 0x7FFF_FFFF_FFFF_FFFF

  /** Addition on 64-bit integers. */
  function PlusOne(n: int): int {
    if n == MAX_INT64 then -MAX_INT64 - 1 else n + 1
  }

  /** What a reader limited to so many bytes yields. */
  function Limited(body: seq<byte>, limit: int): seq<byte> {
    if limit <= 0 then [] else if limit <= |body| then body[..limit] else body
  }

  /** A declared length that goes straight to disk. */
  predicate Streams(config: Config, usage: int, contentLength: int) {
    contentLength > 0 && BelongsOnDisk(config, usage, contentLength)
  }

  /** The body ends up on disk: by its declared length or by the one it turned out to have. */
  predicate UsesDisk(config: Config, usage: int, contentLength: int, size: int) {
    Streams(config, usage, contentLength) || BelongsOnDisk(config, usage, size)
  }

  /** A body from a connection, read up to one byte more than allowed. */
  method CreateFromReader(body: seq<byte>, contentLength: int, maxBytes: int,
                          config: Config, stats: Stats, diskWorks: bool)
    returns (r: Result)
    modifies stats
    ensures var usage, kept := old(stats.diskUsage), Accepted(body, maxBytes);
            && (r == Err(DiskFailed) <==> Streams(config, usage, contentLength) && !diskWorks)
            && (r == Err(TooLarge) <==> kept == None && r != Err(DiskFailed))
            && (r.Ok? ==> kept == Some(ViewOf(r.storage).data) && ViewOf(r.storage) == Cursor(kept.value, 0, false))
            && (r.Ok? ==> r.storage.Disk? == (diskWorks && UsesDisk(config, usage, contentLength, |kept.value|)))
    ensures stats.Value()
         == if r.Ok? then Counted(old(stats.Value()), r.storage.Disk?, |ViewOf(r.storage).data|) else old(stats.Value())
    ensures stats.diskHits - old(stats.diskHits) == (if r.Ok? && r.storage.Disk? then 1 else 0)
    ensures stats.memoryHits - old(stats.memoryHits) == (if r.Ok? && r.storage.Memory? then 1 else 0)
  {
    if config.enabled && contentLength > 0 && contentLength >= Megabytes(config.thresholdMB)
       && stats.diskUsage + contentLength <= Megabytes(config.maxSizeMB) {
      if !diskWorks { return Err(DiskFailed); }
      var written := Limited(body, PlusOne(maxBytes));
      if |written| > maxBytes { return Err(TooLarge); }
      var d := new DiskStorage(written, stats);
      stats.diskHits := stats.diskHits + 1;
      return Ok(Disk(d));
    }
    var data := Limited(body, PlusOne(maxBytes));
    if |data| > maxBytes { return Err(TooLarge); }
    var s := CreateBodyStorage(data, config, stats, diskWorks);
    if s.Memory? { stats.memoryHits := stats.memoryHits + 1; } else { stats.diskHits := stats.diskHits + 1; }
    r := Ok(s);
  }

  /** What is kept of a body: up to one byte more than allowed is read, and then refused. */
  function Accepted(body: seq<byte>, maxBytes: int): Option<seq<byte>> {
    var got := Limited(body, PlusOne(maxBytes));
    if |got| > maxBytes then None else Some(got)
  }

  /** The body is kept whole when it is small enough and refused otherwise, never cut,
      exactly when the limit is not the largest 64-bit number (or there is no body):
      one more than that limit wraps around and nothing is read. */
  lemma WholeOrRefusedIff(body: seq<byte>, maxBytes: int)
    requires -MAX_INT64 - 1 <= maxBytes <= MAX_INT64 && |body| <= MAX_INT64
    ensures Accepted(body, maxBytes) == (if |body| <= maxBytes then Some(body) else None)
         <==> maxBytes != MAX_INT64 || body == []
  {
    if maxBytes == MAX_INT64 {
      assert Accepted(body, maxBytes) == Some([]);
    } else if maxBytes + 1 == |body| {
      assert body[..maxBytes + 1] == body;
    }
  }

  /** The part of the body from a position on, as far as there is room. */
  predicate PartFrom(data: seq<byte>, k: nat, room: nat, part: seq<byte>) {
    && |part| <= room && k + |part| <= |data| && (|part| == room || k + |part| == |data|)
    && forall i :: 0 <= i < |part| ==> part[i] == data[k + i]
  }

  /** A seek goes to the offset counted from the start, the position or the end, the next
      read yields the bytes from there, and a seek before the start changes nothing. */
  lemma SeekThenRead(c: Cursor, offset: int, whence: Whence, room: nat)
    requires !c.closed
    ensures var t := match whence { case Start => offset case Current => c.pos + offset case End => |c.data| + offset };
            var replies := Answers(c, [Seek(offset, whence), Read(room)]);
            && |replies| == 2
            && (t < 0 ==> replies[0] == NegativePosition && Next(c, Seek(offset, whence)) == c)
            && (t >= 0 ==> replies[0] == At(t))
            && (t >= |c.data| ==> replies[1] == AtEnd)
            && (0 <= t < |c.data| ==> replies[1].Data? && PartFrom(c.data, t, room, replies[1].data))
  {
    var calls := [Seek(offset, whence), Read(room)];
    assert calls[1..] == [Read(room)] && [Read(room)][1..] == [];
    var next := Next(c, Seek(offset, whence));
    assert Answers(next, [Read(room)]) == [Answer(next, Read(room))];
  }

  /** A closed storage refuses everything but its size and another close. */
  lemma ClosedRefuses(c: Cursor, call: Call)
    requires c.closed
    ensures Next(c, call) == c
    ensures Answer(c, call) == if call.Size? then Count(|c.data|) else if call.Close? then Done else IsClosed
  {
  }

  /** Of the sizes worth it, exactly those go to disk that leave the usage within the
      configured megabytes; a body of unknown length is never streamed there. */
  lemma OnDiskStaysWithin(config: Config, c: Counters, size: int)
    ensures config.enabled && size >= config.thresholdMB * 1048576 ==>
              (BelongsOnDisk(config, c.diskUsage, size)
               <==> Counted(c, true, size).diskUsage <= config.maxSizeMB * 1048576)
    ensures BelongsOnDisk(config, c.diskUsage, size) ==> config.enabled && size >= config.thresholdMB * 1048576
    ensures Streams(config, c.diskUsage, size) <==> size > 0 && BelongsOnDisk(config, c.diskUsage, size)
  {
  }
}
