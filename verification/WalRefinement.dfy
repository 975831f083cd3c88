/** The log on disk refines the log in memory, over every run and through crashes. */
module WalRefinement {
  import opened Common
  import opened Wal

  /** Everything numbered below the mark is durable. */
  function Mark(s: Disk): nat { if s.meta.Some? then s.meta.value else 1 }

  predicate RowsMatch(sum: Checksum, s: Disk, es: seq<Record>) {
    && RowsIn(sum, s.rows, es)
    && (forall l :: l in s.rows ==> l < Mark(s))
    && (forall r :: r in es && r.0 < Mark(s) ==> r.0 in s.rows)
  }

  /** The buffer holds what is not durable; between the halves of a truncation also records it will drop. */
  predicate BufferMatches(s: Disk, es: seq<Record>) {
    && Ascending(s.buffer)
    && (forall r :: r in s.buffer ==> r in es || (s.cutting.Some? && r.0 < s.cutting.value))
    && (s.cutting.Some? ==> forall r :: r in es ==> r.0 >= s.cutting.value)
    && (forall r :: r in s.buffer ==> r.0 < s.next)
    && (forall r :: r in es && r.0 >= Mark(s) ==> r in s.buffer)
  }

  predicate PhaseMatches(s: Disk, es: seq<Record>) {
    match s.phase
    case Quiet => true
    case Snapshotted(batch, target) =>
      && Mark(s) <= target <= s.next
      && (forall r :: r in batch ==> r in es && r.0 < target)
      && (forall r :: r in es && Mark(s) <= r.0 < target ==> r in batch)
    case Committed(mark) => mark == Mark(s)
  }

  predicate Numbered(m: Memory) {
    Ascending(m.entries) && forall r :: r in m.entries ==> 0 < r.0 <= m.last
  }

  /** What relates the log on disk to the log in memory. */
  predicate Sim(sum: Checksum, s: Disk, m: Memory) {
    && Numbered(m) && s.next == m.last + 1 && 1 <= Mark(s) <= s.next
    && RowsMatch(sum, s, m.entries) && BufferMatches(s, m.entries) && PhaseMatches(s, m.entries)
  }

  /** What each event does to the log in memory: a truncation acts with its first half, a crash cuts at the mark of the disk. */
  function MemStep(s: Disk, m: Memory, e: Event): Memory {
    match e
    case Append(p) => MemAppend(m, p)
    case CutRows(cut) => MemTruncate(m, cut)
    case Crash => Memory(if Mark(s) == 0 then 0 else Mark(s) - 1, Below(m.entries, Mark(s)))
    case _ => m
  }

  function Below(es: seq<Record>, mark: nat): seq<Record> { es[..PartitionPoint(es, mark)] }

  lemma {:induction false} BelowExact(es: seq<Record>, mark: nat)
    requires Ascending(es)
    ensures Ascending(Below(es, mark)) && forall r :: r in Below(es, mark) <==> r in es && r.0 < mark
  {
    if es != [] && es[0].0 < mark {
      BelowExact(es[1..], mark);
      assert Below(es, mark) == [es[0]] + Below(es[1..], mark);
    }
  }

  lemma AppendNumbered(m: Memory, p: Bytes)
    requires Numbered(m)
    ensures Numbered(MemAppend(m, p))
    ensures forall r :: r in MemAppend(m, p).entries <==> r in m.entries || r == (m.last + 1, p)
  {
    forall i | 0 <= i < |m.entries| ensures m.entries[i].0 <= m.last { assert m.entries[i] in m.entries; }
  }

  lemma AppendBuffered(s: Disk, es: seq<Record>, es': seq<Record>, r: Record)
    requires BufferMatches(s, es) && r.0 == s.next && Mark(s) <= s.next && (s.cutting.Some? ==> s.cutting.value <= s.next)
    requires forall x :: x in es' <==> x in es || x == r
    ensures BufferMatches(s.(next := s.next + 1, buffer := s.buffer + [r]), es')
  {
    forall i | 0 <= i < |s.buffer| ensures s.buffer[i].0 < s.next { assert s.buffer[i] in s.buffer; }
  }

  lemma AppendSim(sum: Checksum, s: Disk, m: Memory, p: Bytes)
    requires Sim(sum, s, m) && Undisturbed(s, Append(p))
    ensures Sim(sum, DiskStep(sum, s, Append(p)), MemAppend(m, p))
  {
    hide Unseal, BufferMatches, Numbered;
    AppendNumbered(m, p);
    AppendBuffered(s, m.entries, MemAppend(m, p).entries, (s.next, p));
  }

  lemma BeginSim(sum: Checksum, s: Disk, m: Memory)
    requires Sim(sum, s, m) && s.phase.Quiet? && Undisturbed(s, BeginFlush)
    ensures Sim(sum, DiskStep(sum, s, BeginFlush), m)
  {
    hide Unseal, RowsIn;
    if s.cutting.Some? {
      forall r | r in s.buffer ensures r.0 >= s.cutting.value {
        var i :| 0 <= i < |s.buffer| && s.buffer[i] == r;
      }
    }
  }

  lemma BatchKeys(batch: seq<Record>, target: nat)
    requires forall r :: r in batch ==> r.0 < target
    ensures forall l: nat :: HasKey(batch, l) ==> l < target
    ensures forall r :: r in batch ==> HasKey(batch, r.0)
  {
    forall l: nat | HasKey(batch, l) ensures l < target {
      var i :| 0 <= i < |batch| && batch[i].0 == l;
      assert batch[i] in batch;
    }
    forall r | r in batch ensures HasKey(batch, r.0) {
      var i :| 0 <= i < |batch| && batch[i] == r;
    }
  }

  lemma CommitRows(sum: Checksum, s: Disk, es: seq<Record>)
    requires Fits(sum) && RowsMatch(sum, s, es) && s.phase.Snapshotted? && PhaseMatches(s, es)
    ensures RowsMatch(sum, DiskStep(sum, s, CommitFlush), es)
  {
    hide Unseal, InsertRows, RowsIn, HasKey;
    BatchKeys(s.phase.batch, s.phase.target);
    InsertRowsExact(sum, s.rows, s.phase.batch, es);
  }

  lemma CommitSim(sum: Checksum, s: Disk, m: Memory)
    requires Fits(sum) && Sim(sum, s, m) && s.phase.Snapshotted?
    ensures Sim(sum, DiskStep(sum, s, CommitFlush), m)
  {
    hide RowsMatch, InsertRows, Ascending;
    CommitRows(sum, s, m.entries);
  }

  lemma DrainSim(sum: Checksum, s: Disk, m: Memory)
    requires Sim(sum, s, m) && s.phase.Committed?
    ensures Sim(sum, DiskStep(sum, s, DrainFlush), m)
  {
    hide Unseal, Retain, RowsIn;
    RetainExact(s.buffer, s.phase.mark);
  }

  lemma CutRowsSim(sum: Checksum, s: Disk, m: Memory, cut: nat)
    requires Sim(sum, s, m) && Enabled(s, CutRows(cut)) && Undisturbed(s, CutRows(cut))
    ensures Sim(sum, DiskStep(sum, s, CutRows(cut)), MemTruncate(m, cut))
  {
    hide Unseal, From;
    FromExact(m.entries, cut);
    if cut == 0 { AscendingDetermined(From(m.entries, 0), m.entries); }
    if s.phase.Snapshotted? {
      var batch := s.phase.batch;
      forall r | r in batch ensures r.0 >= cut {
        var i :| 0 <= i < |batch| && batch[i] == r;
      }
    }
  }

  lemma CutBufferSim(sum: Checksum, s: Disk, m: Memory)
    requires Sim(sum, s, m) && s.cutting.Some?
    ensures Sim(sum, DiskStep(sum, s, CutBuffer), m)
  {
    hide Unseal, Retain;
    RetainExact(s.buffer, s.cutting.value);
  }

  lemma CrashSim(sum: Checksum, s: Disk, m: Memory)
    requires Sim(sum, s, m)
    ensures Sim(sum, DiskStep(sum, s, Crash), MemStep(s, m, Crash))
  {
    hide Unseal, Below;
    BelowExact(m.entries, Mark(s));
    assert forall l :: l in s.rows ==> 1 <= l < Mark(s);
    if s.meta.None? { assert s.rows == map[]; }
  }

  lemma StepSim(sum: Checksum, s: Disk, m: Memory, e: Event)
    requires Fits(sum) && Sim(sum, s, m) && Enabled(s, e) && Undisturbed(s, e)
    ensures Sim(sum, DiskStep(sum, s, e), MemStep(s, m, e))
  {
    hide Sim, DiskStep, Below, NoneBelow;
    match e
    case Append(p) => AppendSim(sum, s, m, p);
    case CutRows(cut) => CutRowsSim(sum, s, m, cut);
    case CutBuffer => CutBufferSim(sum, s, m);
    case Crash => CrashSim(sum, s, m);
    case BeginFlush => BeginSim(sum, s, m);
    case CommitFlush => CommitSim(sum, s, m);
    case DrainFlush => DrainSim(sum, s, m);
  }

  /** Reading the disk log gives exactly what reading the log in memory gives, at or above a cut under way. */
  lemma IterRefines(sum: Checksum, s: Disk, m: Memory, lsn: nat)
    requires Sim(sum, s, m) && (s.cutting.Some? ==> lsn >= s.cutting.value)
    ensures IterFrom(sum, s, lsn) == Ok(From(m.entries, lsn))
  {
    hide Unseal, Retain, From, ReadRows, SortDedup, PhaseMatches;
    var rows := RowsFrom(s.rows, lsn);
    ReadRowsExact(sum, rows, m.entries);
    RetainExact(s.buffer, lsn);
    FromExact(m.entries, lsn);
    var read := ReadRows(sum, rows).value;
    var all := read + Retain(s.buffer, lsn);
    SortDedupExact(all);
    var out := SortDedup(all);
    forall r | r in out ensures r in From(m.entries, lsn) {
      assert r in read || r in Retain(s.buffer, lsn);
    }
    forall r | r in From(m.entries, lsn) ensures r in out {
      HasAll(sum, s, m, lsn, read, r);
      assert HasKey(all, r.0);
      var i :| 0 <= i < |all| && all[i].0 == r.0;
      assert HasKey(out, r.0);
      var k :| 0 <= k < |out| && out[k].0 == r.0;
      assert out[k] in m.entries;
      OneRecordPerNumber(m.entries, out[k], r);
    }
    AscendingDetermined(out, From(m.entries, lsn));
  }

  lemma OneRecordPerNumber(es: seq<Record>, a: Record, b: Record)
    requires Ascending(es) && a in es && b in es && a.0 == b.0
    ensures a == b
  {
  }

  /** A record of the log is read either from the table or from the buffer. */
  lemma HasAll(sum: Checksum, s: Disk, m: Memory, lsn: nat, read: seq<Record>, r: Record)
    requires Sim(sum, s, m) && r in m.entries && r.0 >= lsn
    requires forall l :: l in RowsFrom(s.rows, lsn) ==> HasKey(read, l)
    ensures HasKey(read + Retain(s.buffer, lsn), r.0)
  {
    hide Unseal, Retain, PhaseMatches, RowsIn;
    RetainExact(s.buffer, lsn);
    var buffered := Retain(s.buffer, lsn);
    if r.0 < Mark(s) {
      assert r.0 in RowsFrom(s.rows, lsn);
      var i :| 0 <= i < |read| && read[i].0 == r.0;
      assert (read + buffered)[i].0 == r.0;
    } else {
      var i :| 0 <= i < |buffered| && buffered[i] == r;
      assert (read + buffered)[|read| + i].0 == r.0;
    }
  }

  // ---------------------------------------------------------------------------
  // Runs

  /** Both logs after the same events. */
  ghost function Run(sum: Checksum, es: seq<Event>): (Disk, Memory) {
    if es == [] then (EmptyDisk, EmptyMemory)
    else
      var (s, m) := Run(sum, es[..|es| - 1]);
      (DiskStep(sum, s, es[|es| - 1]), MemStep(s, m, es[|es| - 1]))
  }

  /** Every operation takes its steps in order. */
  ghost predicate Runs(sum: Checksum, es: seq<Event>) {
    es != [] ==> Runs(sum, es[..|es| - 1]) && Enabled(Run(sum, es[..|es| - 1]).0, es[|es| - 1])
  }

  /** No step of one operation interferes with another. */
  ghost predicate Calm(sum: Checksum, es: seq<Event>) {
    es != [] ==> Calm(sum, es[..|es| - 1]) && Undisturbed(Run(sum, es[..|es| - 1]).0, es[|es| - 1])
  }

  lemma {:induction false} RunSim(sum: Checksum, es: seq<Event>)
    requires Fits(sum) && Runs(sum, es) && Calm(sum, es)
    ensures Sim(sum, Run(sum, es).0, Run(sum, es).1)
  {
    hide Sim, DiskStep, MemStep, Enabled, Undisturbed;
    if es == [] {
      EmptySim(sum);
    } else {
      RunSim(sum, es[..|es| - 1]);
      StepSim(sum, Run(sum, es[..|es| - 1]).0, Run(sum, es[..|es| - 1]).1, es[|es| - 1]);
    }
  }

  lemma EmptySim(sum: Checksum)
    ensures Sim(sum, EmptyDisk, EmptyMemory)
  {
  }

  /**
   * Over every run without interference, with appends and the halves of truncations between the steps
   * of a flush and crashes at any point, reading from any number gives exactly the appended records
   * that were neither truncated nor lost, in order; between the halves of a truncation, from any number
   * at or above its cut.
   */
  lemma DiskRefinesMemory(sum: Checksum, es: seq<Event>, lsn: nat)
    requires Fits(sum) && Runs(sum, es) && Calm(sum, es)
    ensures var (s, m) := Run(sum, es);
      (s.cutting.Some? ==> lsn >= s.cutting.value) ==> IterFrom(sum, s, lsn) == Ok(From(m.entries, lsn))
  {
    hide Sim, Run, Runs;
    RunSim(sum, es);
    var (s, m) := Run(sum, es);
    if s.cutting.Some? ==> lsn >= s.cutting.value { IterRefines(sum, s, m, lsn); }
  }

  /** A crash keeps exactly the records below the mark of the last committed flush. */
  lemma CrashKeepsCommitted(sum: Checksum, es: seq<Event>, lsn: nat)
    requires Fits(sum) && Runs(sum, es) && Calm(sum, es)
    ensures var (s, m) := Run(sum, es);
      IterFrom(sum, DiskStep(sum, s, Crash), lsn) == Ok(From(Below(m.entries, Mark(s)), lsn))
  {
    hide Sim, Run, Runs;
    RunSim(sum, es);
    var (s, m) := Run(sum, es);
    CrashSim(sum, s, m);
    IterRefines(sum, DiskStep(sum, s, Crash), MemStep(s, m, Crash), lsn);
  }

  /** No surviving number is given out again: the next number after reopening is above every row. */
  lemma ReopenNeverReuses(sum: Checksum, es: seq<Event>, l: nat)
    requires Fits(sum) && Runs(sum, es) && Calm(sum, es) && l in Run(sum, es).0.rows
    ensures l < DiskStep(sum, Run(sum, es).0, Crash).next
  {
    hide Run, Runs, Unseal, BufferMatches, PhaseMatches;
    RunSim(sum, es);
  }

  /** The same holds for a table without a stored next number, as long as its last number is not the largest one. */
  lemma ReopenWithoutMeta(rows: map<nat, Bytes>, l: nat)
    requires l in rows && forall k :: k in rows ==> k < U64_MAX
    ensures l < OpenNext(rows, None)
  {
  }

  // ---------------------------------------------------------------------------
  // Interference

  lemma WholeLog(sum: Checksum, s: Disk, m: Memory)
    requires Sim(sum, s, m) && s.cutting.None?
    ensures IterFrom(sum, s, 0) == Ok(m.entries)
  {
    hide Unseal, From, Retain, SortDedup, ReadRows, RowsMatch, BufferMatches, PhaseMatches;
    IterRefines(sum, s, m, 0);
    FromExact(m.entries, 0);
    AscendingDetermined(From(m.entries, 0), m.entries);
  }

  /** A row that opens is listed, whatever the buffer holds. */
  lemma RowIsListed(sum: Checksum, s: Disk, es: seq<Record>, l: nat)
    requires RowsIn(sum, s.rows, es) && l in s.rows
    ensures IterFrom(sum, s, 0).Ok? && exists r :: r in IterFrom(sum, s, 0).value && r.0 == l
  {
    hide Unseal, Retain, SortDedup, ReadRows, RowsIn;
    assert RowsFrom(s.rows, 0) == s.rows;
    ReadRowsExact(sum, s.rows, es);
    ReadKeyListed(ReadRows(sum, s.rows).value, Retain(s.buffer, 0), l);
  }

  /**
   * Cutting the rows between the copy and the commit of a flush keeps the two logs equal if and only
   * if no copied record is below the cut; otherwise the commit brings cut records back.
   */
  lemma TruncateDuringFlushIff(sum: Checksum, s: Disk, m: Memory, cut: nat)
    requires Fits(sum) && Sim(sum, s, m) && s.phase.Snapshotted? && s.cutting.None? && cut > 0
    ensures var s' := DiskStep(sum, DiskStep(sum, DiskStep(sum, s, CutRows(cut)), CutBuffer), CommitFlush);
      IterFrom(sum, s', 0) == Ok(MemTruncate(m, cut).entries) <==> NoneBelow(s.phase.batch, cut)
  {
    hide Sim, Unseal, From, Retain, InsertRows, SortDedup, ReadRows, IterFrom;
    var s1 := DiskStep(sum, s, CutRows(cut));
    var s2 := DiskStep(sum, s1, CutBuffer);
    var s3, m1 := DiskStep(sum, s2, CommitFlush), MemTruncate(m, cut);
    if NoneBelow(s.phase.batch, cut) {
      CutRowsSim(sum, s, m, cut);
      CutBufferSim(sum, s1, m1);
      CommitSim(sum, s2, m1);
      WholeLog(sum, s3, m1);
    } else {
      var i :| 0 <= i < |s.phase.batch| && s.phase.batch[i].0 < cut;
      CutRecordReturns(sum, s, m, cut, s3, s.phase.batch[i]);
    }
  }

  lemma CutRecordReturns(sum: Checksum, s: Disk, m: Memory, cut: nat, s3: Disk, r: Record)
    requires Fits(sum) && Sim(sum, s, m) && s.phase.Snapshotted? && r in s.phase.batch && r.0 < cut
    requires s3.rows == InsertRows(sum, RowsFrom(s.rows, cut), s.phase.batch)
    ensures IterFrom(sum, s3, 0) != Ok(From(m.entries, cut))
  {
    hide Unseal, From, Retain, InsertRows, SortDedup, ReadRows, BufferMatches, IterFrom;
    var batch := s.phase.batch;
    InsertRowsExact(sum, RowsFrom(s.rows, cut), batch, m.entries);
    var i :| 0 <= i < |batch| && batch[i] == r;
    assert HasKey(batch, r.0);
    RowIsListed(sum, s3, m.entries, r.0);
    FromExact(m.entries, cut);
  }

  /**
   * Starting a flush between the halves of a truncation keeps the two logs equal if and only if the
   * buffer holds no record below the cut; otherwise the flush commits records the truncation drops.
   */
  lemma FlushDuringTruncateIff(sum: Checksum, s: Disk, m: Memory)
    requires Fits(sum) && Sim(sum, s, m) && s.phase.Quiet? && s.cutting.Some? && s.buffer != []
    ensures var s' := DiskStep(sum, DiskStep(sum, DiskStep(sum, s, BeginFlush), CutBuffer), CommitFlush);
      IterFrom(sum, s', 0) == Ok(m.entries) <==> NoneBelow(s.buffer, s.cutting.value)
  {
    hide Sim, Unseal, From, Retain, InsertRows, SortDedup, ReadRows, IterFrom;
    var s1 := DiskStep(sum, s, BeginFlush);
    var s2 := DiskStep(sum, s1, CutBuffer);
    var s3 := DiskStep(sum, s2, CommitFlush);
    if NoneBelow(s.buffer, s.cutting.value) {
      BeginSim(sum, s, m);
      CutBufferSim(sum, s1, m);
      CommitSim(sum, s2, m);
      WholeLog(sum, s3, m);
    } else {
      var i :| 0 <= i < |s.buffer| && s.buffer[i].0 < s.cutting.value;
      DroppedRecordReturns(sum, s, m, s3, s.buffer[i]);
    }
  }

  lemma DroppedRecordReturns(sum: Checksum, s: Disk, m: Memory, s3: Disk, r: Record)
    requires Fits(sum) && Sim(sum, s, m) && s.cutting.Some? && r in s.buffer && r.0 < s.cutting.value
    requires s3.rows == InsertRows(sum, s.rows, s.buffer)
    ensures IterFrom(sum, s3, 0) != Ok(m.entries)
  {
    hide Unseal, From, Retain, InsertRows, SortDedup, ReadRows, IterFrom, PhaseMatches;
    var es := m.entries + s.buffer;
    assert RowsIn(sum, s.rows, es);
    InsertRowsExact(sum, s.rows, s.buffer, es);
    var i :| 0 <= i < |s.buffer| && s.buffer[i] == r;
    assert HasKey(s.buffer, r.0);
    RowIsListed(sum, s3, es, r.0);
  }

  /**
   * Appending between the halves of a truncation keeps the two logs equal if and only if the record's
   * number is not below the cut; otherwise the second half drops the new record.
   */
  lemma AppendDuringTruncateIff(sum: Checksum, s: Disk, m: Memory, p: Bytes)
    requires Fits(sum) && Sim(sum, s, m) && s.cutting.Some?
    ensures var s' := DiskStep(sum, DiskStep(sum, s, Append(p)), CutBuffer);
      IterFrom(sum, s', 0) == Ok(MemAppend(m, p).entries) <==> s.cutting.value <= s.next
  {
    hide Sim, Unseal, From, Retain, SortDedup, ReadRows, IterFrom;
    var s1, m1 := DiskStep(sum, s, Append(p)), MemAppend(m, p);
    var s2 := DiskStep(sum, s1, CutBuffer);
    if s.cutting.value <= s.next {
      AppendSim(sum, s, m, p);
      CutBufferSim(sum, s1, m1);
      WholeLog(sum, s2, m1);
    } else {
      AppendedRecordLost(sum, s, m, p, s2);
    }
  }

  lemma AppendedRecordLost(sum: Checksum, s: Disk, m: Memory, p: Bytes, s2: Disk)
    requires Sim(sum, s, m) && s.cutting.Some? && s.next < s.cutting.value
    requires s2.rows == s.rows && s2.buffer == Retain(s.buffer + [(s.next, p)], s.cutting.value)
    ensures IterFrom(sum, s2, 0) != Ok(MemAppend(m, p).entries)
  {
    hide Unseal, Retain, SortDedup, ReadRows, PhaseMatches;
    var buffer := s.buffer + [(s.next, p)];
    forall i | 0 <= i < |s.buffer| ensures s.buffer[i].0 < s.next { assert s.buffer[i] in s.buffer; }
    assert Ascending(buffer);
    RetainExact(buffer, s.cutting.value);
    RetainExact(s2.buffer, 0);
    assert RowsFrom(s.rows, 0) == s.rows;
    ReadRowsExact(sum, s.rows, m.entries);
    var read := ReadRows(sum, s.rows).value;
    SortDedupExact(read + Retain(s2.buffer, 0));
    var r := (s.next, p);
    assert r !in read + Retain(s2.buffer, 0);
    assert r == MemAppend(m, p).entries[|m.entries|];
  }

  lemma ReadKeyListed(read: seq<Record>, rest: seq<Record>, l: nat)
    requires HasKey(read, l)
    ensures exists r :: r in SortDedup(read + rest) && r.0 == l
  {
    hide SortDedup;
    var all := read + rest;
    SortDedupExact(all);
    var k :| 0 <= k < |read| && read[k].0 == l;
    assert all[k].0 == l;
    var out := SortDedup(all);
    assert HasKey(out, l);
    var j :| 0 <= j < |out| && out[j].0 == l;
    assert out[j] in out;
  }

  // ---------------------------------------------------------------------------
  // A read that straddles a flush

  /** `iter_from` with the rows read in one state and the buffer in a later one. */
  function IterSplit(sum: Checksum, rowsAt: Disk, bufferAt: Disk, lsn: nat): Result<seq<Record>, WalError> {
    IterFrom(sum, rowsAt.(buffer := bufferAt.buffer), lsn)
  }

  /** The records of a batch that the table does not hold yet and a read from `lsn` must list. */
  predicate NewInBatch(s: Disk, lsn: nat, r: Record)
    requires s.phase.Snapshotted?
  {
    r in s.phase.batch && r.0 >= Mark(s) && r.0 >= lsn
  }

  /** The two reads together list only records of the log, and the right numbers of them. */
  lemma SplitLists(sum: Checksum, s: Disk, m: Memory, lsn: nat) returns (out: seq<Record>)
    requires Sim(sum, s, m) && s.phase.Snapshotted? && s.cutting.None?
    ensures IterSplit(sum, s, s.(buffer := Retain(s.buffer, s.phase.target)), lsn) == Ok(out)
    ensures Ascending(out)
    ensures forall r :: r in out ==> r in m.entries && r.0 >= lsn && (r.0 in s.rows || r.0 >= s.phase.target)
    ensures forall r :: r in m.entries && r.0 >= lsn && (r.0 < Mark(s) || r.0 >= s.phase.target) ==> r in out
  {
    hide Unseal, Retain, From, ReadRows, SortDedup;
    var rows := RowsFrom(s.rows, lsn);
    ReadRowsExact(sum, rows, m.entries);
    RetainExact(s.buffer, s.phase.target);
    var kept := Retain(s.buffer, s.phase.target);
    RetainExact(kept, lsn);
    var read, rest := ReadRows(sum, rows).value, Retain(kept, lsn);
    SortDedupExact(read + rest);
    out := SortDedup(read + rest);
    forall r | r in out ensures r in m.entries && r.0 >= lsn && (r.0 in s.rows || r.0 >= s.phase.target) {
      assert r in read || r in rest;
    }
    forall r | r in m.entries && r.0 >= lsn && (r.0 < Mark(s) || r.0 >= s.phase.target) ensures r in out {
      if r.0 < Mark(s) {
        assert r.0 in rows;
      } else {
        var i :| 0 <= i < |rest| && rest[i] == r;
        assert (read + rest)[|read| + i].0 == r.0;
      }
      AnyKeyListed(read, rest, r.0);
      var x :| x in out && x.0 == r.0;
      OneRecordPerNumber(m.entries, x, r);
    }
  }

  lemma AnyKeyListed(read: seq<Record>, rest: seq<Record>, l: nat)
    requires HasKey(read, l) || HasKey(read + rest, l)
    ensures exists r :: r in SortDedup(read + rest) && r.0 == l
  {
    hide SortDedup;
    var all := read + rest;
    if HasKey(read, l) {
      ReadKeyListed(read, rest, l);
    } else {
      assert all + [] == all;
      ReadKeyListed(all, [], l);
    }
  }

  /**
   * If a flush commits and drains between the two reads of an iteration, the iteration lists the
   * whole log if and only if the flush carried nothing the iteration needed.
   */
  lemma SplitReadIff(sum: Checksum, s: Disk, m: Memory, lsn: nat)
    requires Sim(sum, s, m) && s.phase.Snapshotted? && s.cutting.None?
    ensures var s' := DiskStep(sum, DiskStep(sum, s, CommitFlush), DrainFlush);
      IterSplit(sum, s, s', lsn) == Ok(From(m.entries, lsn)) <==> forall r :: !NewInBatch(s, lsn, r)
  {
    hide Unseal, Retain, From, ReadRows, SortDedup, InsertRows, IterSplit;
    var s' := DiskStep(sum, DiskStep(sum, s, CommitFlush), DrainFlush);
    var out := SplitLists(sum, s, m, lsn);
    OnlyBufferRead(sum, s, s', s.(buffer := Retain(s.buffer, s.phase.target)), lsn);
    FromExact(m.entries, lsn);
    if forall r :: !NewInBatch(s, lsn, r) {
      forall r | r in From(m.entries, lsn) ensures r in out { assert !NewInBatch(s, lsn, r); }
      AscendingDetermined(out, From(m.entries, lsn));
    } else {
      var r :| NewInBatch(s, lsn, r);
      assert r !in out && r in From(m.entries, lsn);
    }
  }

  lemma OnlyBufferRead(sum: Checksum, s: Disk, a: Disk, b: Disk, lsn: nat)
    requires a.buffer == b.buffer
    ensures IterSplit(sum, s, a, lsn) == IterSplit(sum, s, b, lsn)
  {
  }
}
