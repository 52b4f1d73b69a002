/** The host's side of the memory it shares with a guest: a cursor that hands out regions, and reads that
    move the cursor behind what the guest has written. */
module HostMemory {
  import opened Wrappers
  import opened MachineInts

  /** `x as i32`, on any integer. */
  function AsI32(x: int): int {
    if x % TWO_32 <= I32_MAX then x % TWO_32 else x % TWO_32 - TWO_32
  }

  /** `x as i64`, on any integer. */
  function AsI64(x: int): int {
    if x % TWO_64 < TWO_64 / 2 then x % TWO_64 else x % TWO_64 - TWO_64
  }

  /** A region, or the cursor: everything below `Next` counts as taken. */
  datatype WasmPointer = WasmPointer(start: int, len: int) {
    function Last(): int { start + len - 1 }

    function Next(): int { Last() + 1 }

    function Consume(n: int): WasmPointer { WasmPointer(start, len + n) }

    /** The new length is the distance between the two ends, not the other's end. */
    function Join(other: WasmPointer): WasmPointer {
      if Last() >= other.Last() then this else WasmPointer(start, other.Last() - Last())
    }
  }

  /** Joining leaves the other region below the cursor if and only if it was there before or the cursor
      had nothing below it. */
  lemma JoinCoversIff(cursor: WasmPointer, other: WasmPointer)
    ensures cursor.Join(other).Last() >= other.Last() <==>
            cursor.Last() >= other.Last() || cursor.len <= 0
  {
  }

  // ----- packed pointers -----

  /** The guest's `slice_to_i64`; address and length are 32-bit unsigned there. */
  function Pack(start: int, len: int): int
    requires 0 <= start < TWO_32 && 0 <= len < TWO_32
  {
    AsI64(start * TWO_32) + len
  }

  /** The host's `From<i64>`: an arithmetic shift and a mask, each cut to 32 bits. */
  function Unpack(v: int): WasmPointer {
    WasmPointer(AsI32(v / TWO_32), AsI32(v % TWO_32))
  }

  /** A packed region survives the trip if and only if its address and its length are below 2^31. */
  lemma PackRoundTripIff(start: int, len: int)
    requires 0 <= start < TWO_32 && 0 <= len < TWO_32
    ensures Unpack(Pack(start, len)) == WasmPointer(start, len) <==> start <= I32_MAX && len <= I32_MAX
  {
    var v := Pack(start, len);
    if start <= I32_MAX {
      assert v == start * TWO_32 + len;
      assert v / TWO_32 == start && v % TWO_32 == len;
    } else {
      assert v == (start - TWO_32) * TWO_32 + len;
      assert v / TWO_32 == start - TWO_32;
    }
  }

  // ----- memory contents -----

  function Splice(memory: seq<byte>, at: int, bytes: seq<byte>): (r: seq<byte>)
    requires 0 <= at && at + |bytes| <= |memory|
    ensures |r| == |memory|
  {
    memory[..at] + bytes + memory[at + |bytes|..]
  }

  predicate InBounds(memory: seq<byte>, p: WasmPointer) {
    0 <= p.start && 0 <= p.len && p.start + p.len <= |memory|
  }

  function Region(memory: seq<byte>, p: WasmPointer): seq<byte>
    requires InBounds(memory, p)
  {
    memory[p.start..p.start + p.len]
  }

  lemma SpliceHit(memory: seq<byte>, at: int, bytes: seq<byte>)
    requires 0 <= at && at + |bytes| <= |memory|
    ensures Region(Splice(memory, at, bytes), WasmPointer(at, |bytes|)) == bytes
  {
  }

  lemma SpliceMiss(memory: seq<byte>, at: int, bytes: seq<byte>, p: WasmPointer)
    requires 0 <= at && at + |bytes| <= |memory| && InBounds(memory, p)
    requires p.start + p.len <= at || at + |bytes| <= p.start
    ensures Region(Splice(memory, at, bytes), p) == Region(memory, p)
  {
  }

  // ----- the runner -----

  datatype HostState = HostState(memory: seq<byte>, cursor: WasmPointer)

  /** A write goes to the next free byte; one that does not fit changes nothing. */
  function HostWrite(s: HostState, bytes: seq<byte>): Option<(HostState, WasmPointer)> {
    var start := s.cursor.Next();
    if 0 <= start && start + |bytes| <= |s.memory| then
      Some((HostState(Splice(s.memory, start, bytes), s.cursor.Consume(|bytes|)),
            WasmPointer(start, |bytes|)))
    else None
  }

  /** A negative length stops the program, which asks for a buffer of that size. */
  datatype ReadError = OutOfBounds | LengthPanic

  /** A read outside the memory fails; any other one joins the region to the cursor. */
  function HostRead(s: HostState, p: WasmPointer): Result<(HostState, seq<byte>), ReadError> {
    if p.len < 0 then Failure(LengthPanic)
    else if InBounds(s.memory, p) then Success((s.(cursor := s.cursor.Join(p)), Region(s.memory, p)))
    else Failure(OutOfBounds)
  }

  class WasmRunner {
    const memory: array<byte>
    var ptr: WasmPointer

    /** The cursor stays within a memory below 2 GiB, so its 32 bits never overflow. */
    ghost predicate Valid()
      reads this
    {
      memory.Length <= I32_MAX && ptr.start == 0 && 0 <= ptr.len <= memory.Length
    }

    function Contents(): HostState
      reads this, memory
    {
      HostState(memory[..], ptr)
    }

    constructor (size: nat)
      requires size <= I32_MAX
      ensures Valid() && fresh(memory) && memory.Length == size && ptr == WasmPointer(0, 0)
    {
      memory := new byte[size](_ => 0);
      ptr := WasmPointer(0, 0);
    }

    method WriteBytes(bytes: seq<byte>) returns (r: Option<WasmPointer>)
      requires Valid()
      modifies this, memory
      ensures Valid()
      ensures match HostWrite(old(Contents()), bytes)
              case None => r == None && Contents() == old(Contents())
              case Some((after, p)) => r == Some(p) && Contents() == after
    {
      var start := ptr.Next();
      if memory.Length < start + |bytes| {
        return None;
      }
      forall i | 0 <= i < |bytes| {
        memory[start + i] := bytes[i];
      }
      ptr := ptr.Consume(|bytes|);
      assert memory[..] == Splice(old(memory[..]), start, bytes);
      r := Some(WasmPointer(start, |bytes|));
    }

    method ReadBytes(p: WasmPointer) returns (r: Result<seq<byte>, ReadError>)
      requires Valid()
      modifies this
      ensures Valid()
      ensures match HostRead(old(Contents()), p)
              case Failure(e) => r == Failure(e) && Contents() == old(Contents())
              case Success((after, bytes)) => r == Success(bytes) && Contents() == after
    {
      if p.len < 0 {
        return Failure(LengthPanic);
      }
      if p.start < 0 || memory.Length < p.start + p.len {
        return Failure(OutOfBounds);
      }
      ptr := ptr.Join(p);
      assert memory[p.start..p.start + p.len] == Region(memory[..], p);
      r := Success(memory[p.start..p.start + p.len]);
    }
  }

  // ----- memory as a log of messages -----

  datatype Op = Write(bytes: seq<byte>) | Reread(index: nat)

  /** A message the host wrote, and where. */
  datatype Entry = Entry(region: WasmPointer, bytes: seq<byte>)

  /** One call by a host that reads only regions it was handed: a write that succeeds adds an entry. */
  function OpStep(s: HostState, log: seq<Entry>, op: Op): (HostState, seq<Entry>) {
    match op
    case Write(bytes) =>
      (match HostWrite(s, bytes)
       case None => (s, log)
       case Some((after, p)) => (after, log + [Entry(p, bytes)]))
    case Reread(i) =>
      if i >= |log| then (s, log) else
      match HostRead(s, log[i].region)
      case Failure(_) => (s, log)
      case Success((after, _)) => (after, log)
  }

  function OpsRun(s: HostState, ops: seq<Op>): (HostState, seq<Entry>) {
    if ops == [] then (s, [])
    else
      var (before, log) := OpsRun(s, ops[..|ops| - 1]);
      OpStep(before, log, ops[|ops| - 1])
  }

  function TotalBytes(log: seq<Entry>): nat {
    if log == [] then 0 else TotalBytes(log[..|log| - 1]) + |log[|log| - 1].bytes|
  }

  /** The entries lie one behind the other from the start of the memory, each holding its bytes, and the
      cursor stands behind the last. */
  ghost predicate Holds(s: HostState, log: seq<Entry>) {
    && s.cursor == WasmPointer(0, TotalBytes(log))
    && TotalBytes(log) <= |s.memory|
    && forall i :: 0 <= i < |log| ==>
         && log[i].region == WasmPointer(TotalBytes(log[..i]), |log[i].bytes|)
         && InBounds(s.memory, log[i].region)
         && Region(s.memory, log[i].region) == log[i].bytes
  }

  lemma {:induction false} TotalMonotone(log: seq<Entry>, i: nat, j: nat)
    requires i <= j <= |log|
    ensures TotalBytes(log[..i]) <= TotalBytes(log[..j])
  {
    if i < j {
      TotalMonotone(log, i, j - 1);
      assert log[..j][..j - 1] == log[..j - 1];
    }
  }

  lemma EntryEnd(log: seq<Entry>, i: nat)
    requires i < |log|
    ensures TotalBytes(log[..i]) + |log[i].bytes| == TotalBytes(log[..i + 1]) <= TotalBytes(log)
  {
    assert log[..i + 1][..i] == log[..i];
    TotalMonotone(log, i + 1, |log|);
    assert log[..|log|] == log;
  }

  lemma WriteHolds(s: HostState, log: seq<Entry>, bytes: seq<byte>)
    requires Holds(s, log)
    ensures Holds(OpStep(s, log, Write(bytes)).0, OpStep(s, log, Write(bytes)).1)
  {
    if HostWrite(s, bytes).Some? {
      var (after, p) := HostWrite(s, bytes).value;
      var longer := log + [Entry(p, bytes)];
      assert longer[..|log|] == log;
      forall i | 0 <= i < |longer|
        ensures longer[i].region == WasmPointer(TotalBytes(longer[..i]), |longer[i].bytes|)
        ensures InBounds(after.memory, longer[i].region)
        ensures Region(after.memory, longer[i].region) == longer[i].bytes
      {
        assert longer[..i] == log[..i];
        if i < |log| {
          EntryEnd(log, i);
          SpliceMiss(s.memory, s.cursor.Next(), bytes, log[i].region);
        } else {
          assert log[..|log|] == log;
          SpliceHit(s.memory, s.cursor.Next(), bytes);
        }
      }
    }
  }

  /** Rereading a region that was handed out returns its bytes and leaves the cursor where it is. */
  lemma RereadHolds(s: HostState, log: seq<Entry>, i: nat)
    requires Holds(s, log) && i < |log|
    ensures HostRead(s, log[i].region) == Success((s, log[i].bytes))
  {
    EntryEnd(log, i);
  }

  /** For every sequence of writes and rereads on a new runner: the memory is a log of the messages
      written. Their regions are contiguous, hence disjoint; every message reads back unchanged without
      moving the cursor; a write that does not fit leaves everything as it was. */
  lemma {:induction false} MemoryIsLog(s: HostState, ops: seq<Op>)
    requires s.cursor == WasmPointer(0, 0)
    ensures var (now, log) := OpsRun(s, ops);
            && Holds(now, log)
            && |now.memory| == |s.memory|
            && forall i :: 0 <= i < |log| ==>
                 HostRead(now, log[i].region) == Success((now, log[i].bytes))
  {
    if ops != [] {
      MemoryIsLog(s, ops[..|ops| - 1]);
      var (before, log) := OpsRun(s, ops[..|ops| - 1]);
      match ops[|ops| - 1] {
        case Write(bytes) => WriteHolds(before, log, bytes);
        case Reread(i) => if i < |log| { RereadHolds(before, log, i); }
      }
    }
    var (now, log) := OpsRun(s, ops);
    forall i | 0 <= i < |log| ensures HostRead(now, log[i].region) == Success((now, log[i].bytes)) {
      RereadHolds(now, log, i);
    }
  }
}
