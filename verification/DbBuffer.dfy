/**
  The write buffer with its write-ahead log: backend/src/degradation/db_buffer.py.

  The log file is a sequence of lines that outlives the buffer. Encoding is abstract: a line written for an entry is
  read back as that entry, and `size` is the encoded length of an entry's data. File errors are not modelled, and an
  add is atomic with its log line.
 */
module DbBuffers {
  import opened Common

  datatype Entry = Entry(resourceType: string, resourceId: string, data: string, timestamp: string, key: string)

  /** Reading a line: an entry, a line that is skipped (blank, not JSON, a field missing), or one whose other error
      escapes the reader. */
  datatype Decoded = Parsed(entry: Entry) | Skipped | Escapes

  datatype Codec = Codec(encode: Entry -> string, decode: string -> Decoded, size: string -> nat)

  ghost predicate Faithful(c: Codec) {
    forall e: Entry :: c.decode(c.encode(e)) == Parsed(e)
  }

  datatype Limits = Limits(maxEntries: int, maxBytes: int)

  datatype Memory = Memory(entries: seq<Entry>, keys: set<string>, bytes: nat)

  const NoEntries := Memory([], {}, 0)

  function Append(c: Codec, m: Memory, e: Entry): Memory {
    Memory(m.entries + [e], m.keys + {e.key}, m.bytes + c.size(e.data))
  }

  /** The memory that a log restores, or nothing when reading a line raises. */
  function Replay(c: Codec, lines: seq<string>): Option<Memory> {
    if |lines| == 0 then Some(NoEntries)
    else
      match Replay(c, lines[..|lines| - 1])
      case None => None
      case Some(m) =>
        match c.decode(lines[|lines| - 1])
        case Escapes => None
        case Skipped => Some(m)
        case Parsed(e) => if e.key in m.keys then Some(m) else Some(Append(c, m, e))
  }

  /** A buffer and the log on disk. */
  datatype Store = Store(memory: Memory, log: seq<string>)

  predicate Full(c: Codec, l: Limits, m: Memory, e: Entry) {
    |m.entries| >= l.maxEntries || m.bytes + c.size(e.data) >= l.maxBytes
  }

  /** `add`: the new store and whether the entry is held. */
  function Add(c: Codec, l: Limits, s: Store, e: Entry): (Store, bool) {
    if e.key in s.memory.keys then (s, true)
    else if Full(c, l, s.memory, e) then (s, false)
    else (Store(Append(c, s.memory, e), s.log + [c.encode(e)]), true)
  }

  /** `flush_to_db`: the log is truncated only when there was something to flush. */
  function Flush(s: Store): (Store, nat) {
    if |s.memory.entries| == 0 then (s, 0) else (Store(NoEntries, []), |s.memory.entries|)
  }

  class WalFile {
    var lines: seq<string>

    constructor (lines: seq<string>)
      ensures this.lines == lines
    {
      this.lines := lines;
    }
  }

  class DBBuffer {
    const codec: Codec
    const limits: Limits
    const wal: WalFile
    var entries: seq<Entry>
    var idempotentKeys: set<string>
    var byteCount: nat

    function Contents(): Memory
      reads this
    {
      Memory(entries, idempotentKeys, byteCount)
    }

    function State(): Store
      reads this, wal
    {
      Store(Contents(), wal.lines)
    }

    constructor (codec: Codec, limits: Limits, wal: WalFile)
      ensures this.codec == codec && this.limits == limits && this.wal == wal
      ensures Contents() == NoEntries
    {
      this.codec, this.limits, this.wal := codec, limits, wal;
      entries, idempotentKeys, byteCount := [], {}, 0;
    }

    /** The part of construction that reads the log; `false` when reading a line raises. */
    method RestoreFromWal() returns (ok: bool)
      requires Contents() == NoEntries
      modifies this
      ensures ok <==> Replay(codec, wal.lines).Some?
      ensures ok ==> Contents() == Replay(codec, wal.lines).value
      ensures !ok ==> Contents() == NoEntries
    {
      var restored: seq<Entry> := [];
      NothingToReplay(codec);
      hide Replay, Distinct;
      var i := 0;
      while i < |wal.lines|
        invariant 0 <= i <= |wal.lines|
        invariant Contents() == NoEntries
        invariant Replay(codec, wal.lines[..i]) == Some(Distinct(codec, restored))
      {
        var line := codec.decode(wal.lines[i]);
        ReplayNext(codec, wal.lines, i);
        if line.Escapes? {
          EscapeIsFinal(codec, wal.lines, i + 1);
          return false;
        }
        if line.Parsed? {
          DistinctAppend(codec, restored, line.entry);
          restored := restored + [line.entry];
        }
        i := i + 1;
      }
      assert wal.lines[..i] == wal.lines;
      i := 0;
      while i < |restored|
        invariant 0 <= i <= |restored|
        invariant Contents() == Distinct(codec, restored[..i])
      {
        var entry := restored[i];
        assert restored[..i + 1] == restored[..i] + [entry];
        DistinctAppend(codec, restored[..i], entry);
        if entry.key !in idempotentKeys {
          var entryBytes := codec.size(entry.data);
          entries := entries + [entry];
          idempotentKeys := idempotentKeys + {entry.key};
          byteCount := byteCount + entryBytes;
        }
        i := i + 1;
      }
      assert restored[..i] == restored;
      ok := true;
    }

    method AddEntry(e: Entry) returns (held: bool)
      modifies this, wal
      ensures (State(), held) == Add(codec, limits, old(State()), e)
    {
      if e.key in idempotentKeys {
        return true;
      }
      var entryBytes := codec.size(e.data);
      if |entries| >= limits.maxEntries {
        return false;
      }
      if byteCount + entryBytes >= limits.maxBytes {
        return false;
      }
      entries := entries + [e];
      idempotentKeys := idempotentKeys + {e.key};
      byteCount := byteCount + entryBytes;
      wal.lines := wal.lines + [codec.encode(e)];
      held := true;
    }

    method FlushToDb() returns (count: nat)
      modifies this, wal
      ensures (State(), count) == Flush(old(State()))
    {
      if |entries| == 0 {
        return 0;
      }
      count := |entries|;
      entries := [];
      idempotentKeys := {};
      byteCount := 0;
      wal.lines := [];
    }
  }

  /** Entries appended in order, later duplicates of a key dropped. */
  function Distinct(c: Codec, entries: seq<Entry>): Memory {
    if |entries| == 0 then NoEntries
    else
      var m := Distinct(c, entries[..|entries| - 1]);
      var e := entries[|entries| - 1];
      if e.key in m.keys then m else Append(c, m, e)
  }

  lemma NothingToReplay(c: Codec)
    ensures Replay(c, []) == Some(NoEntries) && Distinct(c, []) == NoEntries
  {
  }

  lemma DistinctAppend(c: Codec, entries: seq<Entry>, e: Entry)
    ensures Distinct(c, entries + [e])
            == var m := Distinct(c, entries); if e.key in m.keys then m else Append(c, m, e)
  {
    assert (entries + [e])[..|entries|] == entries;
  }

  lemma ReplayNext(c: Codec, lines: seq<string>, i: nat)
    requires i < |lines| && Replay(c, lines[..i]).Some?
    ensures var m := Replay(c, lines[..i]).value;
            Replay(c, lines[..i + 1]) ==
            match c.decode(lines[i])
            case Escapes => None
            case Skipped => Some(m)
            case Parsed(e) => if e.key in m.keys then Some(m) else Some(Append(c, m, e))
  {
    assert lines[..i + 1][..i] == lines[..i];
  }

  lemma {:induction false} EscapeIsFinal(c: Codec, lines: seq<string>, k: nat)
    requires k <= |lines| && Replay(c, lines[..k]).None?
    ensures Replay(c, lines).None?
  {
    if k == |lines| {
      assert lines[..k] == lines;
    } else {
      assert lines[..|lines| - 1][..k] == lines[..k];
      EscapeIsFinal(c, lines[..|lines| - 1], k);
    }
  }

  // --------------------------------------------------------------------------------------------
  // Runs with crashes
  // --------------------------------------------------------------------------------------------

  datatype Op = AddOp(entry: Entry) | FlushOp | CrashOp

  /** A crash loses the memory; the next process restores it from the log. */
  function Restart(c: Codec, s: Store): Store {
    match Replay(c, s.log)
    case Some(m) => Store(m, s.log)
    case None => s
  }

  function Do(c: Codec, l: Limits, s: Store, op: Op): Store {
    match op
    case AddOp(e) => Add(c, l, s, e).0
    case FlushOp => Flush(s).0
    case CrashOp => Restart(c, s)
  }

  function Run(c: Codec, l: Limits, s: Store, ops: seq<Op>): Store {
    if |ops| == 0 then s else Do(c, l, Run(c, l, s, ops[..|ops| - 1]), ops[|ops| - 1])
  }

  function WithoutCrashes(ops: seq<Op>): seq<Op> {
    if |ops| == 0 then []
    else WithoutCrashes(ops[..|ops| - 1]) + if ops[|ops| - 1].CrashOp? then [] else [ops[|ops| - 1]]
  }

  function TotalSize(c: Codec, entries: seq<Entry>): nat {
    if |entries| == 0 then 0
    else TotalSize(c, entries[..|entries| - 1]) + c.size(entries[|entries| - 1].data)
  }

  function KeysOf(entries: seq<Entry>): set<string> {
    set i | 0 <= i < |entries| :: entries[i].key
  }

  lemma KeysOfAppend(entries: seq<Entry>, e: Entry)
    ensures KeysOf(entries + [e]) == KeysOf(entries) + {e.key}
  {
    var all := entries + [e];
    assert forall i :: 0 <= i < |entries| ==> all[i] == entries[i];
    assert all[|entries|] == e;
  }

  /** The three in-memory fields describe one list of entries with distinct keys. */
  ghost predicate Valid(c: Codec, m: Memory) {
    && m.keys == KeysOf(m.entries)
    && (forall i, j :: 0 <= i < j < |m.entries| ==> m.entries[i].key != m.entries[j].key)
    && m.bytes == TotalSize(c, m.entries)
  }

  predicate WithinLimits(l: Limits, m: Memory) {
    |m.entries| > 0 ==> |m.entries| <= l.maxEntries && m.bytes < l.maxBytes
  }

  lemma AppendKeepsValid(c: Codec, m: Memory, e: Entry)
    requires Valid(c, m) && e.key !in m.keys
    ensures Valid(c, Append(c, m, e))
  {
    var m', n := Append(c, m, e), |m.entries|;
    KeysOfAppend(m.entries, e);
    assert m'.entries[..n] == m.entries;
    assert forall i :: 0 <= i < n ==> m.entries[i].key in KeysOf(m.entries);
    hide KeysOf;
  }

  /** Whatever a log contains, what it restores is valid. */
  lemma {:induction false} ReplayIsValid(c: Codec, lines: seq<string>)
    requires Replay(c, lines).Some?
    ensures Valid(c, Replay(c, lines).value)
  {
    if |lines| > 0 {
      var n := |lines| - 1;
      ReplayIsValid(c, lines[..n]);
      var m := Replay(c, lines[..n]).value;
      if c.decode(lines[n]).Parsed? && c.decode(lines[n]).entry.key !in m.keys {
        AppendKeepsValid(c, m, c.decode(lines[n]).entry);
      }
    }
  }

  /** The log restores exactly the memory. */
  ghost predicate Recoverable(c: Codec, s: Store) {
    Replay(c, s.log) == Some(s.memory)
  }

  lemma DoKeepsRecoverable(c: Codec, l: Limits, s: Store, op: Op)
    requires Faithful(c) && Recoverable(c, s)
    ensures Recoverable(c, Do(c, l, s, op))
    ensures op.CrashOp? ==> Do(c, l, s, op) == s
  {
    if op.AddOp? && Do(c, l, s, op) != s {
      var line := c.encode(op.entry);
      assert c.decode(line) == Parsed(op.entry);
      assert (s.log + [line])[..|s.log|] == s.log;
    }
  }

  /** From any log that can be read, over every run of adds, flushes and crashes: restoring at any point rebuilds
      exactly the entries in order, the key set and the byte count; keys are unique, and the count is the sum of the
      encoded sizes. */
  lemma {:induction false} RestartRebuildsMemory(c: Codec, l: Limits, log: seq<string>, ops: seq<Op>)
    requires Faithful(c) && Replay(c, log).Some?
    ensures var start := Store(Replay(c, log).value, log);
            var s := Run(c, l, start, ops);
            && Restart(c, s) == s && Recoverable(c, s)
            && Valid(c, s.memory)
  {
    var start := Store(Replay(c, log).value, log);
    if |ops| > 0 {
      var n := |ops| - 1;
      RestartRebuildsMemory(c, l, log, ops[..n]);
      DoKeepsRecoverable(c, l, Run(c, l, start, ops[..n]), ops[n]);
    }
    ReplayIsValid(c, Run(c, l, start, ops).log);
  }

  /** Crashes are invisible: any run ends in the same store as the run with its crashes left out. */
  lemma {:induction false} CrashesAreInvisible(c: Codec, l: Limits, log: seq<string>, ops: seq<Op>)
    requires Faithful(c) && Replay(c, log).Some?
    ensures var start := Store(Replay(c, log).value, log);
            Run(c, l, start, ops) == Run(c, l, start, WithoutCrashes(ops))
  {
    if |ops| > 0 {
      var n := |ops| - 1;
      var start := Store(Replay(c, log).value, log);
      CrashesAreInvisible(c, l, log, ops[..n]);
      RestartRebuildsMemory(c, l, log, ops[..n]);
      var kept := WithoutCrashes(ops[..n]);
      if ops[n].CrashOp? {
        assert kept + [] == kept;
      } else {
        assert (kept + [ops[n]])[..|kept|] == kept;
      }
    }
  }

  /** An add reports success exactly when its key is held afterwards, and then some entry with that key is. */
  lemma AddHoldsKey(c: Codec, l: Limits, s: Store, e: Entry)
    requires Valid(c, s.memory)
    ensures var (s', held) := Add(c, l, s, e);
            && (held <==> e.key in s'.memory.keys)
            && (held ==> exists i :: 0 <= i < |s'.memory.entries| && s'.memory.entries[i].key == e.key)
            && s.memory.entries <= s'.memory.entries
  {
    var s' := Add(c, l, s, e).0;
    if e.key !in s.memory.keys && !Full(c, l, s.memory, e) {
      assert s'.memory.entries[|s.memory.entries|] == e;
    }
  }

  /** An add succeeds exactly when its key is held already, or both limits leave room for it; a new entry then goes to
      the end of memory and log, and in every other case nothing changes. */
  lemma AddAcceptedIff(c: Codec, l: Limits, s: Store, e: Entry)
    ensures var (s', held) := Add(c, l, s, e);
            var m, known := s.memory, e.key in s.memory.keys;
            && (held <==> known || (|m.entries| < l.maxEntries && m.bytes + c.size(e.data) < l.maxBytes))
            && (held && !known ==> s' == Store(Append(c, m, e), s.log + [c.encode(e)]))
            && (!held || known ==> s' == s)
  {
  }

  /** What has been offered since the last flush, after what the log held at the start. */
  function Offered(start: seq<Entry>, ops: seq<Op>): seq<Entry> {
    if |ops| == 0 then start
    else
      var before := Offered(start, ops[..|ops| - 1]);
      match ops[|ops| - 1]
      case AddOp(e) => before + [e]
      case FlushOp => []
      case CrashOp => before
  }

  predicate FirstOfItsKey(entries: seq<Entry>, i: nat)
    requires i < |entries|
  {
    forall j :: 0 <= j < i ==> entries[j].key != entries[i].key
  }

  /** The first entry of every key. */
  function Firsts(entries: seq<Entry>): seq<Entry> {
    if |entries| == 0 then []
    else
      var n := |entries| - 1;
      Firsts(entries[..n]) + if FirstOfItsKey(entries, n) then [entries[n]] else []
  }

  lemma {:induction false} DistinctIsFirsts(c: Codec, entries: seq<Entry>)
    ensures Distinct(c, entries).entries == Firsts(entries) && Distinct(c, entries).keys == KeysOf(entries)
  {
    if |entries| > 0 {
      var n := |entries| - 1;
      DistinctIsFirsts(c, entries[..n]);
      KnownKey(entries, n);
      assert entries == entries[..n] + [entries[n]];
      hide KeysOf, FirstOfItsKey;
      KeysOfAppend(entries[..n], entries[n]);
    }
  }

  lemma KnownKey(entries: seq<Entry>, n: nat)
    requires n < |entries|
    ensures entries[n].key in KeysOf(entries[..n]) <==> !FirstOfItsKey(entries, n)
    ensures entries[n].key in KeysOf(entries[..n]) ==> KeysOf(entries[..n]) + {entries[n].key} == KeysOf(entries[..n])
  {
    if !FirstOfItsKey(entries, n) {
      var j :| 0 <= j < n && entries[j].key == entries[n].key;
      assert entries[..n][j].key == entries[n].key;
    }
  }

  /** What a log restores is what its entries come to. */
  lemma {:induction false} ReplayIsDistinct(c: Codec, lines: seq<string>)
    requires Replay(c, lines).Some?
    ensures Distinct(c, Replay(c, lines).value.entries) == Replay(c, lines).value
  {
    hide Distinct;
    if |lines| == 0 {
      NothingToReplay(c);
    } else {
      var n := |lines| - 1;
      ReplayIsDistinct(c, lines[..n]);
      if c.decode(lines[n]).Parsed? {
        DistinctAppend(c, Replay(c, lines[..n]).value.entries, c.decode(lines[n]).entry);
      }
    }
  }

  /** One step: while what was offered fits, it is what is held. */
  lemma StepHolds(c: Codec, l: Limits, s: Store, before: seq<Entry>, op: Op)
    requires Faithful(c) && Recoverable(c, s) && Valid(c, s.memory)
    requires WithinLimits(l, Distinct(c, before)) ==> s.memory == Distinct(c, before)
    ensures var after := match op case AddOp(e) => before + [e] case FlushOp => [] case CrashOp => before;
            WithinLimits(l, Distinct(c, after)) ==> Do(c, l, s, op).memory == Distinct(c, after)
  {
    match op
    case AddOp(e) => DistinctAppend(c, before, e);
    case FlushOp => assert s.memory.entries == [] ==> s.memory == NoEntries;
    case CrashOp => DoKeepsRecoverable(c, l, s, op);
  }

  /** Nothing is refused without need: in every run from any log that can be read, the buffer holds exactly the first
      entry of every key offered since the last flush, in order, if and only if these fit its limits; a flush then
      reports them. */
  lemma {:induction false} HoldsAllIffFits(c: Codec, l: Limits, log: seq<string>, ops: seq<Op>)
    requires Faithful(c) && Replay(c, log).Some?
    ensures var start := Store(Replay(c, log).value, log);
            var s, all := Run(c, l, start, ops), Distinct(c, Offered(start.memory.entries, ops));
            && (WithinLimits(l, all) <==> s.memory == all && WithinLimits(l, s.memory))
            && all.entries == Firsts(Offered(start.memory.entries, ops))
            && (WithinLimits(l, all) ==> Flush(s).0.memory == NoEntries && Flush(s).1 == |all.entries|)
  {
    hide Do, WithinLimits, Distinct;
    var start := Store(Replay(c, log).value, log);
    RestartRebuildsMemory(c, l, log, ops);
    DistinctIsFirsts(c, Offered(start.memory.entries, ops));
    if |ops| == 0 {
      ReplayIsDistinct(c, log);
    } else {
      var n := |ops| - 1;
      HoldsAllIffFits(c, l, log, ops[..n]);
      RestartRebuildsMemory(c, l, log, ops[..n]);
      StepHolds(c, l, Run(c, l, start, ops[..n]), Offered(start.memory.entries, ops[..n]), ops[n]);
    }
    EmptyIsEmpty(c, Run(c, l, start, ops).memory);
  }

  lemma EmptyIsEmpty(c: Codec, m: Memory)
    requires Valid(c, m)
    ensures m.entries == [] ==> m == NoEntries
  {
  }

  /** One operation leaves a buffer within its limits exactly when it was, or when it is a flush; a buffer over its
      limits refuses every add and survives every crash as it is. */
  lemma DoWithinLimitsIff(c: Codec, l: Limits, s: Store, op: Op)
    requires Recoverable(c, s)
    ensures WithinLimits(l, Do(c, l, s, op).memory) <==> WithinLimits(l, s.memory) || op.FlushOp?
    ensures !WithinLimits(l, s.memory) && !op.FlushOp? ==> Do(c, l, s, op) == s
  {
  }

  /** Restoring checks no limit, and everything after it does: in a run from any log that can be read the limits hold
      exactly when they held after start-up or something has been flushed since; until then the store is exactly the
      one that was restored. */
  lemma {:induction false} LimitsHoldIff(c: Codec, l: Limits, log: seq<string>, ops: seq<Op>)
    requires Faithful(c) && Replay(c, log).Some?
    ensures var start := Store(Replay(c, log).value, log);
            var s := Run(c, l, start, ops);
            && (WithinLimits(l, s.memory) <==>
                  WithinLimits(l, start.memory) || exists i :: 0 <= i < |ops| && ops[i] == FlushOp)
            && (!WithinLimits(l, s.memory) ==> s == start)
  {
    hide Do, WithinLimits;
    if |ops| > 0 {
      var n := |ops| - 1;
      var before := Run(c, l, Store(Replay(c, log).value, log), ops[..n]);
      LimitsHoldIff(c, l, log, ops[..n]);
      RestartRebuildsMemory(c, l, log, ops[..n]);
      DoWithinLimitsIff(c, l, before, ops[n]);
      assert forall i :: 0 <= i < n ==> ops[..n][i] == ops[i];
    }
  }

  /** The limits are not enforced on a log written under larger ones. */
  lemma RestoreIgnoresLimits(c: Codec, e: Entry)
    requires Faithful(c)
    ensures var m := Replay(c, [c.encode(e)]); m.Some? && !WithinLimits(Limits(0, 0), m.value)
  {
    assert c.decode(c.encode(e)) == Parsed(e);
    assert [c.encode(e)][..0] == [];
    assert Replay(c, [c.encode(e)]) == Some(Append(c, NoEntries, e));
  }
}
