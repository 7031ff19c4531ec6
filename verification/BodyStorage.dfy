/** Request bodies that are kept for several reads, in memory or in a temporary file.

    Both storages are proved against one abstract reader, and a caller that reads into
    buffers of some size cannot tell them apart. The usage counters are a ledger over all
    storages, whose steps interleave. */
module BodyStorage {
  import opened Numbers
  import opened Options

  function Min(a: int, b: int): int {
    if a < b then a else b
  }

  // ----- the abstract reader -----

  datatype Reader = Reader(content: seq<Byte>, pos: nat, closed: bool)

  datatype ReadResult = Data(bytes: seq<Byte>) | EndOfFile | Failed

  datatype Whence = Start | Current | End | Unknown

  /** A read of up to `n` bytes into a buffer that is not empty. */
  function Read(r: Reader, n: nat): (ReadResult, Reader) {
    if r.closed then (Failed, r)
    else if r.pos >= |r.content| then (EndOfFile, r)
    else
      var end := Min(r.pos + n, |r.content|);
      (Data(r.content[r.pos..end]), r.(pos := end))
  }

  function Target(r: Reader, offset: int, whence: Whence): Option<int> {
    match whence
    case Start => Some(offset)
    case Current => Some(r.pos + offset)
    case End => Some(|r.content| + offset)
    case Unknown => None
  }

  /** The new position, which may lie beyond the end; a negative one is refused. */
  function Seek(r: Reader, offset: int, whence: Whence): (Option<int>, Reader) {
    var target := Target(r, offset, whence);
    if r.closed || target.None? || target.value < 0 then (None, r) else (target, r.(pos := target.value))
  }

  // ----- the ledger of usage counters -----

  datatype Kind = Files | DiskBytes | Buffers | MemoryBytes

  datatype Stats = Stats(files: int, diskBytes: int, buffers: int, memoryBytes: int)

  function Counter(s: Stats, k: Kind): int {
    match k
    case Files => s.files
    case DiskBytes => s.diskBytes
    case Buffers => s.buffers
    case MemoryBytes => s.memoryBytes
  }

  /** Subtraction as the disk counters do it: a negative result is stored as zero. */
  function Clamped(x: int, d: int): int {
    if x - d < 0 then 0 else x - d
  }

  /** First and second half of counting a new storage, and of uncounting a closed one:
      each half is one atomic addition. */
  function CountOne(s: Stats, disk: bool): Stats {
    if disk then s.(files := s.files + 1) else s.(buffers := s.buffers + 1)
  }

  function CountBytes(s: Stats, disk: bool, size: nat): Stats {
    if disk then s.(diskBytes := s.diskBytes + size) else s.(memoryBytes := s.memoryBytes + size)
  }

  function UncountOne(s: Stats, disk: bool): Stats {
    if disk then s.(files := Clamped(s.files, 1)) else s.(buffers := s.buffers - 1)
  }

  function UncountBytes(s: Stats, disk: bool, size: nat): Stats {
    if disk then s.(diskBytes := Clamped(s.diskBytes, size)) else s.(memoryBytes := s.memoryBytes - size)
  }

  class CacheStats {
    var stats: Stats

    constructor ()
      ensures stats == Stats(0, 0, 0, 0)
    {
      stats := Stats(0, 0, 0, 0);
    }

    method Increment(disk: bool, size: nat)
      modifies this
      ensures stats == CountBytes(CountOne(old(stats), disk), disk, size)
    {
      stats := CountOne(stats, disk);
      stats := CountBytes(stats, disk, size);
    }

    method Decrement(disk: bool, size: nat)
      modifies this
      ensures stats == UncountBytes(UncountOne(old(stats), disk), disk, size)
    {
      stats := UncountOne(stats, disk);
      stats := UncountBytes(stats, disk, size);
    }
  }

  // ----- the two storages -----

  class MemoryStorage {
    const data: seq<Byte>
    const usage: CacheStats
    var pos: nat
    var closed: bool

    constructor (data: seq<Byte>, usage: CacheStats)
      modifies usage
      ensures View() == Reader(data, 0, false) && this.usage == usage
      ensures usage.stats == CountBytes(CountOne(old(usage.stats), false), false, |data|)
    {
      this.data := data;
      this.usage := usage;
      pos := 0;
      closed := false;
      new;
      usage.Increment(false, |data|);
    }

    function View(): Reader
      reads this
    {
      Reader(data, pos, closed)
    }

    method ReadInto(n: nat) returns (r: ReadResult)
      modifies this
      ensures (r, View()) == Read(old(View()), n)
    {
      if closed {
        return Failed;
      }
      if pos >= |data| {
        return EndOfFile;
      }
      var end := Min(pos + n, |data|);
      r := Data(data[pos..end]);
      pos := end;
    }

    method SeekTo(offset: int, whence: Whence) returns (r: Option<int>)
      modifies this
      ensures (r, View()) == Seek(old(View()), offset, whence)
    {
      if closed {
        return None;
      }
      var abs := 0;
      match whence {
        case Start => abs := offset;
        case Current => abs := pos + offset;
        case End => abs := |data| + offset;
        case Unknown => return None;
      }
      if abs < 0 {
        return None;
      }
      pos := abs;
      return Some(abs);
    }

    method Bytes() returns (r: Option<seq<Byte>>)
      ensures r == if View().closed then None else Some(View().content)
    {
      return if closed then None else Some(data);
    }

    method Close()
      modifies this, usage
      ensures View() == old(View()).(closed := true)
      ensures usage.stats == if old(closed) then old(usage.stats)
        else UncountBytes(UncountOne(old(usage.stats), false), false, |data|)
    {
      if !closed {
        closed := true;
        usage.Decrement(false, |data|);
      }
    }
  }

  /** A file on disk that only its storage writes. */
  class TempFile {
    const content: seq<Byte>
    var offset: nat

    constructor (content: seq<Byte>)
      ensures this.content == content && offset == 0
    {
      this.content := content;
      offset := 0;
    }

    /** read(2): an empty buffer is never at the end of the file. */
    method Read(n: nat) returns (r: ReadResult)
      modifies this
      ensures r == (if n == 0 then Data([]) else if old(offset) >= |content| then EndOfFile
                    else Data(content[old(offset)..Min(old(offset) + n, |content|)]))
      ensures offset == if n == 0 || old(offset) >= |content| then old(offset) else Min(old(offset) + n, |content|)
    {
      if n == 0 {
        return Data([]);
      }
      if offset >= |content| {
        return EndOfFile;
      }
      var end := Min(offset + n, |content|);
      r := Data(content[offset..end]);
      offset := end;
    }

    /** lseek(2). */
    method Seek(target: int) returns (ok: bool)
      modifies this
      ensures ok == (target >= 0)
      ensures offset == if ok then target else old(offset)
    {
      ok := target >= 0;
      if ok {
        offset := target;
      }
    }
  }

  class DiskStorage {
    const file: TempFile
    const usage: CacheStats
    const size: nat
    var closed: bool

    constructor (data: seq<Byte>, usage: CacheStats)
      modifies usage
      ensures Valid() && fresh(file) && View() == Reader(data, 0, false) && this.usage == usage
      ensures usage.stats == CountBytes(CountOne(old(usage.stats), true), true, |data|)
    {
      file := new TempFile(data);
      this.usage := usage;
      size := |data|;
      closed := false;
      new;
      usage.Increment(true, |data|);
    }

    predicate Valid() {
      size == |file.content|
    }

    function View(): Reader
      reads this, file
    {
      Reader(file.content, file.offset, closed)
    }

    method ReadInto(n: nat) returns (r: ReadResult)
      modifies file
      ensures n > 0 || old(file.offset) < |file.content| || closed ==> (r, View()) == Read(old(View()), n)
      ensures !(n > 0 || old(file.offset) < |file.content| || closed) ==>
        r == Data([]) != Read(old(View()), n).0 && View() == old(View())
    {
      if closed {
        return Failed;
      }
      r := file.Read(n);
      assert n == 0 && old(file.offset) < |file.content| ==> file.content[file.offset..file.offset] == [];
    }

    method SeekTo(offset: int, whence: Whence) returns (r: Option<int>)
      modifies file
      ensures (r, View()) == Seek(old(View()), offset, whence)
    {
      if closed || whence == Unknown {
        return None;
      }
      var target :=
        match whence
        case Start => offset
        case Current => file.offset + offset
        case End => |file.content| + offset;
      var ok := file.Seek(target);
      return if ok then Some(target) else None;
    }

    /** Reads the file from its start and puts the position back. */
    method Bytes() returns (r: Option<seq<Byte>>)
      requires Valid()
      modifies file
      ensures View() == old(View())
      ensures r == if View().closed then None else Some(View().content)
    {
      if closed {
        return None;
      }
      var current := file.offset;
      var ok := file.Seek(0);
      var part := file.Read(size);
      ok := file.Seek(current);
      assert file.content[0..|file.content|] == file.content;
      return if part.Data? then Some(part.bytes) else Some([]);
    }

    method Close()
      requires Valid()
      modifies this, usage
      ensures View() == old(View()).(closed := true)
      ensures usage.stats == if old(closed) then old(usage.stats)
        else UncountBytes(UncountOne(old(usage.stats), true), true, size)
    {
      if !closed {
        closed := true;
        usage.Decrement(true, size);
      }
    }
  }

  // ----- telling the storages apart -----

  datatype Call = CallRead(n: nat) | CallSeek(offset: int, whence: Whence) | CallBytes | CallClose

  datatype Answer = Got(read: ReadResult) | At(pos: Option<int>) | Whole(bytes: Option<seq<Byte>>) | Closed

  method AskMemory(m: MemoryStorage, c: Call) returns (a: Answer)
    modifies m, m.usage
    ensures (a, m.View()) == Ask(old(m.View()), c)
  {
    match c {
      case CallRead(n) => var r := m.ReadInto(n); return Got(r);
      case CallSeek(offset, whence) => var r := m.SeekTo(offset, whence); return At(r);
      case CallBytes => var r := m.Bytes(); return Whole(r);
      case CallClose => m.Close(); return Closed;
    }
  }

  method AskDisk(d: DiskStorage, c: Call) returns (a: Answer)
    requires d.Valid() && (c.CallRead? ==> c.n > 0)
    modifies d, d.file, d.usage
    ensures d.Valid() && (a, d.View()) == Ask(old(d.View()), c)
  {
    match c {
      case CallRead(n) => var r := d.ReadInto(n); return Got(r);
      case CallSeek(offset, whence) => var r := d.SeekTo(offset, whence); return At(r);
      case CallBytes => var r := d.Bytes(); return Whole(r);
      case CallClose => d.Close(); return Closed;
    }
  }

  function Ask(r: Reader, c: Call): (Answer, Reader) {
    match c
    case CallRead(n) => (Got(Read(r, n).0), Read(r, n).1)
    case CallSeek(offset, whence) => (At(Seek(r, offset, whence).0), Seek(r, offset, whence).1)
    case CallBytes => (Whole(if r.closed then None else Some(r.content)), r)
    case CallClose => (Closed, r.(closed := true))
  }

  /** A memory and a disk storage of one body give the same answers to the same calls,
      reads into empty buffers apart. */
  method AskBoth(m: MemoryStorage, d: DiskStorage, calls: seq<Call>) returns (memory: seq<Answer>, disk: seq<Answer>)
    requires d.Valid() && m.View() == d.View()
    requires forall i :: 0 <= i < |calls| && calls[i].CallRead? ==> calls[i].n > 0
    modifies m, m.usage, d, d.file, d.usage
    ensures memory == disk && |memory| == |calls| && m.View() == d.View()
  {
    memory, disk := [], [];
    for i := 0 to |calls|
      invariant d.Valid() && m.View() == d.View() && memory == disk && |memory| == i
    {
      ghost var before := d.View();
      var a := AskMemory(m, calls[i]);
      assert d.View() == before;
      var b := AskDisk(d, calls[i]);
      memory, disk := memory + [a], disk + [b];
    }
  }

  // ----- one body, several attempts -----

  /** What an attempt does with the body; the upstream request cannot close it. */
  datatype Op = OpRead(n: nat) | OpSeek(offset: int, whence: Whence)

  function Do(r: Reader, op: Op): Reader {
    match op
    case OpRead(n) => Read(r, n).1
    case OpSeek(offset, whence) => Seek(r, offset, whence).1
  }

  function Play(r: Reader, ops: seq<Op>): Reader
    decreases |ops|
  {
    if ops == [] then r else Play(Do(r, ops[0]), ops[1..])
  }

  /** `GetBodyStorage` on a request that already has one. */
  function Rewind(r: Reader): Reader {
    Seek(r, 0, Start).1
  }

  function Sum(chunks: seq<nat>): nat {
    if chunks == [] then 0 else chunks[0] + Sum(chunks[1..])
  }

  function Collect(r: Reader, chunks: seq<nat>): seq<Byte>
    decreases |chunks|
  {
    if chunks == [] then []
    else
      var (result, next) := Read(r, chunks[0]);
      if result.Data? then result.bytes + Collect(next, chunks[1..]) else []
  }

  lemma {:induction false} PlayKeepsContent(r: Reader, ops: seq<Op>)
    ensures Play(r, ops).content == r.content && Play(r, ops).closed == r.closed
    decreases |ops|
  {
    if ops != [] {
      PlayKeepsContent(Do(r, ops[0]), ops[1..]);
    }
  }

  lemma {:induction false} CollectIsSlice(r: Reader, chunks: seq<nat>)
    requires !r.closed && r.pos <= |r.content|
    ensures Collect(r, chunks) == r.content[r.pos..Min(r.pos + Sum(chunks), |r.content|)]
    decreases |chunks|
  {
    if chunks != [] && r.pos < |r.content| {
      var (result, next) := Read(r, chunks[0]);
      CollectIsSlice(next, chunks[1..]);
    }
  }

  /** Whatever earlier attempts read or sought, the next one reads the whole body, in
      chunks of any sizes. */
  lemma EveryAttemptSeesBody(r: Reader, ops: seq<Op>, chunks: seq<nat>)
    requires !r.closed && Sum(chunks) >= |r.content|
    ensures Collect(Rewind(Play(r, ops)), chunks) == r.content
  {
    PlayKeepsContent(r, ops);
    CollectIsSlice(Rewind(Play(r, ops)), chunks);
  }

  /** Seeking moves to the offset from the start, the position or the end, and the next
      read starts there; a negative target and an unknown origin are refused. */
  lemma SeekThenRead(r: Reader, offset: int, whence: Whence, n: nat)
    requires !r.closed
    ensures var target := match whence
                          case Start => offset
                          case Current => r.pos + offset
                          case End => |r.content| + offset
                          case Unknown => -1;
      var (result, next) := Seek(r, offset, whence);
      if target < 0 then result == None && next == r
      else
        result == Some(target) && next.content == r.content && !next.closed &&
        var (read, last) := Read(next, n);
        if target >= |r.content| then read == EndOfFile && last == next
        else
          var end := if target + n < |r.content| then target + n else |r.content|;
          read == Data(r.content[target..end]) && last.pos == end
  {
  }

  /** A closed storage refuses everything and stays as it is. */
  lemma ClosedRefuses(r: Reader, offset: int, whence: Whence, n: nat)
    requires r.closed
    ensures Read(r, n) == (Failed, r) && Seek(r, offset, whence) == (None, r)
  {
  }

  /** One request's context: the incoming stream, which can be read once, bytes that older
      code may have kept of it, and the storage kept after that. `None` results are errors. */
  class RequestContext {
    const body: seq<Byte>
    const cached: Option<seq<Byte>>
    const maxBody: nat
    var consumed: bool
    var storage: Option<Reader>

    constructor (body: seq<Byte>, cached: Option<seq<Byte>>, maxBody: nat)
      ensures this.body == body && this.cached == cached && this.maxBody == maxBody && !consumed && storage == None
    {
      this.body := body;
      this.cached := cached;
      this.maxBody := maxBody;
      consumed := false;
      storage := None;
    }

    /** What the request serves: kept bytes, else the stream unless it is too long. */
    function Served(): Option<seq<Byte>> {
      if cached.Some? then cached else if |body| <= maxBody then Some(body) else None
    }

    predicate Valid()
      reads this
    {
      storage.Some? ==> Served() == Some(storage.value.content)
    }

    /** `GetBodyStorage`: a storage that is there is rewound, unless it is closed; else one
        is made from the kept bytes or, the first time, from the stream. */
    method GetBodyStorage() returns (r: Option<Reader>)
      requires Valid()
      modifies this
      ensures Valid() && storage == (if r.Some? then r else old(storage))
      ensures consumed == (old(consumed) || (old(storage).None? && cached.None?))
      ensures r.Some? ==> Served().Some? && r == Some(Reader(Served().value, 0, false))
      ensures r.Some? <==> if old(storage).Some? then !old(storage).value.closed
        else Served().Some? && (cached.Some? || !old(consumed))
    {
      if storage.Some? {
        if storage.value.closed {
          return None;
        }
        storage := Some(Rewind(storage.value));
        return storage;
      }
      if cached.Some? {
        storage := Some(Reader(cached.value, 0, false));
        return storage;
      }
      var again := consumed;
      consumed := true;
      if again || |body| > maxBody {
        return None;
      }
      storage := Some(Reader(body, 0, false));
      return storage;
    }

    /** What an attempt does with the storage it was given. */
    method Use(ops: seq<Op>)
      requires Valid()
      modifies this
      ensures Valid() && consumed == old(consumed)
      ensures storage == if old(storage).Some? then Some(Play(old(storage).value, ops)) else None
      ensures storage.Some? ==> storage.value.closed == old(storage).value.closed
    {
      if storage.Some? {
        PlayKeepsContent(storage.value, ops);
        storage := Some(Play(storage.value, ops));
      }
    }

    /** Every attempt of a request starts with the whole body, however many there are and
        whatever they do with it. */
    method Attempts(attempts: seq<seq<Op>>) returns (seen: seq<Option<Reader>>)
      requires storage == None && !consumed
      modifies this
      ensures Valid() && |seen| == |attempts| && (storage.Some? <==> attempts != [] && Served().Some?)
      ensures forall i :: 0 <= i < |seen| ==>
        seen[i] == if Served().Some? then Some(Reader(Served().value, 0, false)) else None
    {
      seen := [];
      for n := 0 to |attempts|
        invariant Valid() && |seen| == n && (storage.Some? <==> n > 0 && Served().Some?)
        invariant n == 0 ==> !consumed
        invariant storage.Some? ==> !storage.value.closed
        invariant forall i :: 0 <= i < n ==>
          seen[i] == if Served().Some? then Some(Reader(Served().value, 0, false)) else None
      {
        var r := GetBodyStorage();
        seen := seen + [r];
        Use(attempts[n]);
      }
    }

    /** `CleanupBodyStorage` closes the storage, which it returns here, and forgets it. */
    method Cleanup() returns (closed: Option<Reader>)
      modifies this
      ensures Valid() && storage == None && consumed == old(consumed)
      ensures closed == match old(storage) case Some(r) => Some(r.(closed := true)) case None => None
    {
      if storage.None? {
        return None;
      }
      closed := Some(storage.value.(closed := true));
      storage := None;
    }

    /** `BodyStorageCleanup`: a request that got a storage in any of its attempts leaves it
        closed, and none behind. */
    method Handle(attempts: seq<seq<Op>>) returns (seen: seq<Option<Reader>>, closed: Option<Reader>)
      requires storage == None && !consumed
      modifies this
      ensures Valid() && storage == None && |seen| == |attempts|
      ensures closed.Some? <==> exists i :: 0 <= i < |seen| && seen[i].Some?
      ensures closed.Some? ==> closed.value.closed
      ensures forall i :: 0 <= i < |seen| ==>
        seen[i] == if cached.Some? then Some(Reader(cached.value, 0, false))
                   else if |body| <= maxBody then Some(Reader(body, 0, false)) else None
    {
      seen := Attempts(attempts);
      assert storage.Some? ==> seen[0].Some?;
      closed := Cleanup();
    }
  }

  // ----- all requests at once -----

  /** Sizes in bytes; `maxBody` is the request limit. */
  datatype Config = Config(enabled: bool, threshold: int, maxDisk: int, maxBody: nat)

  /** How far one request got. `disk` is where its body goes. */
  datatype Phase =
    | Arrived | Buffered | Admitted(disk: bool) | HalfCounted(disk: bool) | Held(disk: bool)
    | HalfUncounted(disk: bool) | Done | Refused

  /** `declared` is the Content-Length header, -1 without one; `size` what the body has;
      `diskFails` that the temporary file cannot be written. */
  datatype Request = Request(declared: int, size: nat, diskFails: bool, phase: Phase)

  datatype World = World(stats: Stats, requests: seq<Request>)

  predicate Available(cfg: Config, s: Stats, size: int) {
    cfg.enabled && s.diskBytes + size <= cfg.maxDisk
  }

  /** `CreateBodyStorageFromReader`, up to its first and its second look at the usage. */
  function FirstCheck(cfg: Config, s: Stats, q: Request): Phase {
    if cfg.enabled && q.declared > 0 && q.declared >= cfg.threshold && Available(cfg, s, q.declared) then
      if q.diskFails || q.size > cfg.maxBody then Refused else Admitted(true)
    else if q.size > cfg.maxBody then Refused else Buffered
  }

  function SecondCheck(cfg: Config, s: Stats, q: Request): Phase {
    Admitted(cfg.enabled && q.size >= cfg.threshold && Available(cfg, s, q.size) && !q.diskFails)
  }

  function NextPhase(cfg: Config, s: Stats, q: Request): Phase {
    match q.phase
    case Arrived => FirstCheck(cfg, s, q)
    case Buffered => SecondCheck(cfg, s, q)
    case Admitted(disk) => HalfCounted(disk)
    case HalfCounted(disk) => Held(disk)
    case Held(disk) => HalfUncounted(disk)
    case HalfUncounted(disk) => Done
    case Done => Done
    case Refused => Refused
  }

  function NextStats(s: Stats, q: Request): Stats {
    match q.phase
    case Admitted(disk) => CountOne(s, disk)
    case HalfCounted(disk) => CountBytes(s, disk, q.size)
    case Held(disk) => UncountOne(s, disk)
    case HalfUncounted(disk) => UncountBytes(s, disk, q.size)
    case _ => s
  }

  /** One atomic step of request `i`; closing again does nothing. */
  function Step(cfg: Config, w: World, i: nat): World {
    if i >= |w.requests| then w
    else
      var q := w.requests[i];
      World(NextStats(w.stats, q), w.requests[i := q.(phase := NextPhase(cfg, w.stats, q))])
  }

  function Run(cfg: Config, w: World, steps: seq<nat>): World
    decreases |steps|
  {
    if steps == [] then w else Run(cfg, Step(cfg, w, steps[0]), steps[1..])
  }

  /** What a request contributes to a counter. */
  function Share(k: Kind, q: Request): nat {
    match k
    case Files => if q.phase == HalfCounted(true) || q.phase == Held(true) then 1 else 0
    case DiskBytes => if q.phase == Held(true) || q.phase == HalfUncounted(true) then q.size else 0
    case Buffers => if q.phase == HalfCounted(false) || q.phase == Held(false) then 1 else 0
    case MemoryBytes => if q.phase == Held(false) || q.phase == HalfUncounted(false) then q.size else 0
  }

  function Total(k: Kind, qs: seq<Request>): nat {
    if qs == [] then 0 else Share(k, qs[0]) + Total(k, qs[1..])
  }

  lemma {:induction false} TotalUpdate(k: Kind, qs: seq<Request>, i: nat, q: Request)
    requires i < |qs|
    ensures Total(k, qs[i := q]) == Total(k, qs) - Share(k, qs[i]) + Share(k, q)
    ensures Share(k, qs[i]) <= Total(k, qs)
  {
    if i == 0 {
      assert qs[i := q][1..] == qs[1..];
    } else {
      assert qs[i := q][1..] == qs[1..][i - 1 := q];
      TotalUpdate(k, qs[1..], i - 1, q);
    }
  }

  predicate Balanced(w: World) {
    forall k :: Counter(w.stats, k) == Total(k, w.requests)
  }

  /** Every counter is the sum over the open storages, and the clamp never fires. */
  lemma StepKeepsBalance(cfg: Config, w: World, i: nat)
    requires Balanced(w)
    ensures Balanced(Step(cfg, w, i))
    ensures i < |w.requests| && w.requests[i].phase == Held(true) ==> w.stats.files >= 1
    ensures i < |w.requests| && w.requests[i].phase == HalfUncounted(true) ==> w.stats.diskBytes >= w.requests[i].size
  {
    if i < |w.requests| {
      var q := w.requests[i];
      var q2 := q.(phase := NextPhase(cfg, w.stats, q));
      forall k ensures Counter(Step(cfg, w, i).stats, k) == Total(k, Step(cfg, w, i).requests) {
        TotalUpdate(k, w.requests, i, q2);
        ShareMoves(cfg, w.stats, q, k);
      }
      assert Counter(w.stats, Files) == Total(Files, w.requests);
      TotalUpdate(Files, w.requests, i, q);
      assert Counter(w.stats, DiskBytes) == Total(DiskBytes, w.requests);
      TotalUpdate(DiskBytes, w.requests, i, q);
    }
  }

  /** A step changes each counter by what the request's share changes. */
  lemma ShareMoves(cfg: Config, s: Stats, q: Request, k: Kind)
    requires Counter(s, k) >= Share(k, q)
    ensures Counter(NextStats(s, q), k) ==
      Counter(s, k) - Share(k, q) + Share(k, q.(phase := NextPhase(cfg, s, q)))
  {
    match k
    case Files =>
    case DiskBytes =>
    case Buffers =>
    case MemoryBytes =>
  }

  lemma {:induction false} RunKeepsBalance(cfg: Config, w: World, steps: seq<nat>)
    requires Balanced(w)
    ensures Balanced(Run(cfg, w, steps))
    decreases |steps|
  {
    if steps != [] {
      StepKeepsBalance(cfg, w, steps[0]);
      RunKeepsBalance(cfg, Step(cfg, w, steps[0]), steps[1..]);
    }
  }

  predicate AtRest(w: World) {
    forall i :: 0 <= i < |w.requests| ==>
      w.requests[i].phase in {Arrived, Buffered, Done, Refused} || w.requests[i].phase.Admitted?
  }

  /** Once every storage of any run is closed, nothing is counted any more. */
  lemma NothingLeaks(cfg: Config, w: World, steps: seq<nat>, k: Kind)
    requires Balanced(w) && AtRest(Run(cfg, w, steps))
    ensures Counter(Run(cfg, w, steps).stats, k) == 0
  {
    RunKeepsBalance(cfg, w, steps);
    RestIsZero(k, Run(cfg, w, steps));
  }

  lemma RestIsZero(k: Kind, w: World)
    requires AtRest(w)
    ensures Total(k, w.requests) == 0
  {
    NoShares(k, w.requests);
  }

  lemma {:induction false} NoShares(k: Kind, qs: seq<Request>)
    requires forall i :: 0 <= i < |qs| ==> Share(k, qs[i]) == 0
    ensures Total(k, qs) == 0
  {
    if qs != [] {
      NoShares(k, qs[1..]);
    }
  }

  /** Where a body goes when nobody else moves: straight to disk if its declared length
      reaches the threshold and fits, otherwise it is read first, and what was read goes to
      disk under the same conditions, or stays in memory. It is refused if it is too long,
      or if it was to go straight to a disk that fails. */
  lemma PlacedIff(cfg: Config, s: Stats, q: Request)
    requires q.phase == Arrived
    ensures var looked := NextPhase(cfg, s, q);
      var direct := cfg.enabled && q.declared > 0 && cfg.threshold <= q.declared <= cfg.maxDisk - s.diskBytes;
      var later := cfg.enabled && cfg.threshold <= q.size <= cfg.maxDisk - s.diskBytes;
      looked == (if q.size > cfg.maxBody || (direct && q.diskFails) then Refused
                 else if direct then Admitted(true) else Buffered) &&
      (looked == Buffered ==> NextPhase(cfg, s, q.(phase := looked)) == Admitted(later && !q.diskFails))
  {
  }

  // ----- the disk limit -----

  /** Bytes that were promised room on disk and are not counted yet. */
  function Reserved(qs: seq<Request>): nat {
    if qs == [] then 0
    else
      (if qs[0].phase == Admitted(true) || qs[0].phase == HalfCounted(true) then qs[0].size else 0) +
      Reserved(qs[1..])
  }

  lemma {:induction false} ReservedUpdate(qs: seq<Request>, i: nat, q: Request)
    requires i < |qs|
    ensures Reserved(qs[i := q]) == Reserved(qs) - Reserved([qs[i]]) + Reserved([q])
    ensures Reserved([qs[i]]) <= Reserved(qs)
  {
    if i == 0 {
      assert qs[i := q][1..] == qs[1..] && [q][1..] == [] && [qs[0]][1..] == [];
    } else {
      assert qs[i := q][1..] == qs[1..][i - 1 := q];
      ReservedUpdate(qs[1..], i - 1, q);
    }
  }

  /** No request looks at the usage while another one is between its look and its count. */
  predicate Alone(w: World, i: nat) {
    i < |w.requests| && (w.requests[i].phase.Arrived? || w.requests[i].phase.Buffered?) ==> Reserved(w.requests) == 0
  }

  predicate Sequential(cfg: Config, w: World, steps: seq<nat>)
    decreases |steps|
  {
    steps != [] ==> Alone(w, steps[0]) && Sequential(cfg, Step(cfg, w, steps[0]), steps[1..])
  }

  predicate Honest(qs: seq<Request>) {
    forall i :: 0 <= i < |qs| ==> qs[i].declared <= 0 || qs[i].size <= qs[i].declared
  }

  predicate WithinLimit(cfg: Config, w: World) {
    w.stats.diskBytes + Reserved(w.requests) <= cfg.maxDisk
  }

  lemma StepKeepsLimit(cfg: Config, w: World, i: nat)
    requires Balanced(w) && Honest(w.requests) && Alone(w, i) && WithinLimit(cfg, w)
    ensures WithinLimit(cfg, Step(cfg, w, i)) && Honest(Step(cfg, w, i).requests)
  {
    if i < |w.requests| {
      var q := w.requests[i];
      var q2 := q.(phase := NextPhase(cfg, w.stats, q));
      StepKeepsBalance(cfg, w, i);
      ReservedUpdate(w.requests, i, q2);
      assert [q][1..] == [] && [q2][1..] == [];
    }
  }

  /** While looks at the usage do not overlap and no body is longer than declared, the
      disk usage stays within its limit, through any run. */
  lemma {:induction false} UsageStaysWithinLimit(cfg: Config, w: World, steps: seq<nat>)
    requires Balanced(w) && Honest(w.requests) && Sequential(cfg, w, steps) && WithinLimit(cfg, w)
    ensures WithinLimit(cfg, Run(cfg, w, steps)) && Run(cfg, w, steps).stats.diskBytes <= cfg.maxDisk
    decreases |steps|
  {
    if steps != [] {
      StepKeepsLimit(cfg, w, steps[0]);
      StepKeepsBalance(cfg, w, steps[0]);
      UsageStaysWithinLimit(cfg, Step(cfg, w, steps[0]), steps[1..]);
    }
  }

  function Empty(qs: seq<Request>): World {
    World(Stats(0, 0, 0, 0), qs)
  }

  lemma RunTwo(cfg: Config, w: World, i: nat, rest: seq<nat>)
    ensures Run(cfg, w, [i, i] + rest) == Run(cfg, Step(cfg, Step(cfg, w, i), i), rest)
  {
    var s := [i, i] + rest;
    assert s[1..] == [i] + rest && s[1..][1..] == rest;
    assert Run(cfg, w, s) == Run(cfg, Step(cfg, w, i), s[1..]);
  }

  // ----- when the limit holds whatever the schedule -----

  /** A request that goes to disk when it looks at an empty cache. */
  predicate WantsDisk(cfg: Config, q: Request) {
    cfg.enabled && !q.diskFails && q.size <= cfg.maxBody &&
    ((0 < q.declared && cfg.threshold <= q.declared <= cfg.maxDisk) || cfg.threshold <= q.size <= cfg.maxDisk)
  }

  function DiskDemand(cfg: Config, qs: seq<Request>): nat {
    if qs == [] then 0 else (if WantsDisk(cfg, qs[0]) then qs[0].size else 0) + DiskDemand(cfg, qs[1..])
  }

  predicate OnDisk(p: Phase) {
    p == Admitted(true) || p == HalfCounted(true) || p == Held(true) || p == HalfUncounted(true)
  }

  /** The same requests, wherever they got to, and only those that want the disk on it. */
  predicate Follows(cfg: Config, qs: seq<Request>, rs: seq<Request>) {
    |qs| == |rs| &&
    forall i :: 0 <= i < |qs| ==>
      rs[i] == qs[i].(phase := rs[i].phase) && (OnDisk(rs[i].phase) ==> WantsDisk(cfg, qs[i])) &&
      (rs[i].phase == Buffered ==> qs[i].size <= cfg.maxBody)
  }

  lemma StepFollows(cfg: Config, qs: seq<Request>, w: World, i: nat)
    requires Follows(cfg, qs, w.requests) && w.stats.diskBytes >= 0
    ensures Follows(cfg, qs, Step(cfg, w, i).requests)
  {
  }

  lemma {:induction false} DemandBoundsTotal(cfg: Config, qs: seq<Request>, rs: seq<Request>)
    requires Follows(cfg, qs, rs)
    ensures Total(DiskBytes, rs) <= DiskDemand(cfg, qs)
  {
    if qs != [] {
      DemandBoundsTotal(cfg, qs[1..], rs[1..]);
    }
  }

  lemma {:induction false} RunWithinDemand(cfg: Config, qs: seq<Request>, w: World, steps: seq<nat>)
    requires Balanced(w) && Follows(cfg, qs, w.requests)
    ensures Run(cfg, w, steps).stats.diskBytes <= DiskDemand(cfg, qs)
    decreases |steps|
  {
    assert Counter(w.stats, DiskBytes) == Total(DiskBytes, w.requests);
    if steps == [] {
      DemandBoundsTotal(cfg, qs, w.requests);
    } else {
      StepFollows(cfg, qs, w, steps[0]);
      StepKeepsBalance(cfg, w, steps[0]);
      RunWithinDemand(cfg, qs, Step(cfg, w, steps[0]), steps[1..]);
    }
  }

  /** Every request below `n` takes two steps, one request after the other. */
  function TwoEach(n: nat): seq<nat> {
    if n == 0 then [] else TwoEach(n - 1) + [n - 1, n - 1]
  }

  /** Two steps of a request in a cache that stays empty on disk. */
  function Twice(cfg: Config, q: Request): Request {
    var q1 := q.(phase := NextPhase(cfg, Stats(0, 0, 0, 0), q));
    q1.(phase := NextPhase(cfg, Stats(0, 0, 0, 0), q1))
  }

  lemma {:induction false} RunConcat(cfg: Config, w: World, a: seq<nat>, b: seq<nat>)
    ensures Run(cfg, w, a + b) == Run(cfg, Run(cfg, w, a), b)
    decreases |a|
  {
    if a == [] {
      assert a + b == b;
    } else {
      assert (a + b)[1..] == a[1..] + b;
      RunConcat(cfg, Step(cfg, w, a[0]), a[1..], b);
    }
  }

  lemma StepTwice(cfg: Config, w: World, i: nat)
    requires i < |w.requests|
    ensures Run(cfg, w, [i, i]) == Step(cfg, Step(cfg, w, i), i)
  {
    RunTwo(cfg, w, i, []);
    assert [i, i] + [] == [i, i];
  }

  lemma LookedAfterTwo(cfg: Config, w: World, i: nat)
    requires i < |w.requests| && w.requests[i].phase == Arrived && w.stats.diskBytes == 0
    ensures var v := Run(cfg, w, [i, i]);
      v.stats.diskBytes == 0 && v.requests == w.requests[i := Twice(cfg, w.requests[i])]
  {
    StepTwice(cfg, w, i);
  }

  /** First every request looks: nothing is counted on disk yet, so each sees an empty
      cache. */
  lemma {:induction false} AllLook(cfg: Config, qs: seq<Request>, n: nat)
    requires n <= |qs| && forall i :: 0 <= i < |qs| ==> qs[i].phase == Arrived
    ensures var w := Run(cfg, Empty(qs), TwoEach(n));
      w.stats.diskBytes == 0 && |w.requests| == |qs| &&
      forall i :: 0 <= i < |qs| ==> w.requests[i] == if i < n then Twice(cfg, qs[i]) else qs[i]
  {
    if n > 0 {
      hide Twice, Run;
      AllLook(cfg, qs, n - 1);
      RunConcat(cfg, Empty(qs), TwoEach(n - 1), [n - 1, n - 1]);
      LookedAfterTwo(cfg, Run(cfg, Empty(qs), TwoEach(n - 1)), n - 1);
    }
  }

  /** A request that wants the disk is counted there after two more steps. */
  lemma CountedAfterFour(cfg: Config, w: World, i: nat, q: Request)
    requires i < |w.requests| && q.phase == Arrived && w.requests[i] == Twice(cfg, q)
    ensures var v := Run(cfg, w, [i, i]);
      |v.requests| == |w.requests| &&
      (forall j :: 0 <= j < |w.requests| && j != i ==> v.requests[j] == w.requests[j]) &&
      (WantsDisk(cfg, q) ==> Share(DiskBytes, v.requests[i]) == q.size)
  {
    StepTwice(cfg, w, i);
  }

  /** Then every request counts. */
  lemma {:induction false} AllCount(cfg: Config, qs: seq<Request>, w: World, n: nat)
    requires n <= |qs| == |w.requests|
    requires forall i :: 0 <= i < |qs| ==> qs[i].phase == Arrived && w.requests[i] == Twice(cfg, qs[i])
    ensures var v := Run(cfg, w, TwoEach(n));
      |v.requests| == |qs| && (forall i :: n <= i < |qs| ==> v.requests[i] == w.requests[i]) &&
      forall i :: 0 <= i < n && WantsDisk(cfg, qs[i]) ==> Share(DiskBytes, v.requests[i]) == qs[i].size
  {
    if n > 0 {
      hide Twice, Run, WantsDisk, Share;
      AllCount(cfg, qs, w, n - 1);
      RunConcat(cfg, w, TwoEach(n - 1), [n - 1, n - 1]);
      CountedAfterFour(cfg, Run(cfg, w, TwoEach(n - 1)), n - 1, qs[n - 1]);
    }
  }

  lemma {:induction false} DemandIsTotal(cfg: Config, qs: seq<Request>, rs: seq<Request>)
    requires |qs| == |rs|
    requires forall i :: 0 <= i < |qs| && WantsDisk(cfg, qs[i]) ==> Share(DiskBytes, rs[i]) == qs[i].size
    ensures Total(DiskBytes, rs) >= DiskDemand(cfg, qs)
  {
    if qs != [] {
      DemandIsTotal(cfg, qs[1..], rs[1..]);
    }
  }

  lemma EmptyIsBalanced(qs: seq<Request>)
    requires forall i :: 0 <= i < |qs| ==> qs[i].phase == Arrived
    ensures Balanced(Empty(qs))
  {
    forall k ensures Counter(Empty(qs).stats, k) == Total(k, qs) {
      NoShares(k, qs);
    }
  }

  /** Some schedule has all of the demand on disk at once. */
  lemma DemandIsReached(cfg: Config, qs: seq<Request>)
    requires forall i :: 0 <= i < |qs| ==> qs[i].phase == Arrived
    ensures Run(cfg, Empty(qs), TwoEach(|qs|) + TwoEach(|qs|)).stats.diskBytes >= DiskDemand(cfg, qs)
  {
    var looked := Run(cfg, Empty(qs), TwoEach(|qs|));
    AllLook(cfg, qs, |qs|);
    AllCount(cfg, qs, looked, |qs|);
    RunConcat(cfg, Empty(qs), TwoEach(|qs|), TwoEach(|qs|));
    var w := Run(cfg, looked, TwoEach(|qs|));
    EmptyIsBalanced(qs);
    RunKeepsBalance(cfg, Empty(qs), TwoEach(|qs|) + TwoEach(|qs|));
    assert Counter(w.stats, DiskBytes) == Total(DiskBytes, w.requests);
    DemandIsTotal(cfg, qs, w.requests);
  }

  /** Exactly when no schedule of these requests exceeds the limit: when all that want
      the disk fit on it together. */
  lemma LimitHoldsIffDemandFits(cfg: Config, qs: seq<Request>)
    requires forall i :: 0 <= i < |qs| ==> qs[i].phase == Arrived
    ensures (forall steps :: Run(cfg, Empty(qs), steps).stats.diskBytes <= cfg.maxDisk) <==>
      DiskDemand(cfg, qs) <= cfg.maxDisk
  {
    if DiskDemand(cfg, qs) <= cfg.maxDisk {
      EmptyIsBalanced(qs);
      forall steps ensures Run(cfg, Empty(qs), steps).stats.diskBytes <= cfg.maxDisk {
        RunWithinDemand(cfg, qs, Empty(qs), steps);
      }
    } else {
      DemandIsReached(cfg, qs);
    }
  }

  /** Two requests that look before either counts both fit, and together do not. */
  lemma OverlapBreaksLimit(max: nat)
    requires max > 0
    ensures var q := Request(max, max, false, Arrived);
      Run(Config(true, 1, max, max), Empty([q, q]), TwoEach(2) + TwoEach(2)).stats.diskBytes >= 2 * max
  {
    var q := Request(max, max, false, Arrived);
    var cfg := Config(true, 1, max, max);
    DemandIsReached(cfg, [q, q]);
    assert [q, q][1..] == [q] && [q][1..] == [];
    assert DiskDemand(cfg, [q, q]) == max + DiskDemand(cfg, [q]);
  }

  /** A body longer than its Content-Length is admitted for what was declared. */
  lemma UnderdeclaredBreaksLimit(max: nat)
    requires max > 0
    ensures var q := Request(max, max + 1, false, Arrived);
      Run(Config(true, 1, max, max + 1), Empty([q]), TwoEach(1) + TwoEach(1)).stats.diskBytes >= max + 1
  {
    var q := Request(max, max + 1, false, Arrived);
    DemandIsReached(Config(true, 1, max, max + 1), [q]);
    assert [q][1..] == [];
  }
}
