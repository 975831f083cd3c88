/** The two write-ahead logs as the objects that change in place. */
module WalLogs {
  import opened Common
  import opened Wal

  /** Reading from the newest number gives the newest record alone. */
  lemma {:induction false} NewestAlone(es: seq<Record>, lsn: nat, payload: Bytes)
    requires forall r :: r in es ==> r.0 < lsn
    ensures From(es + [(lsn, payload)], lsn) == [(lsn, payload)]
  {
    if es == [] {
      assert es + [(lsn, payload)] == [(lsn, payload)];
    } else {
      assert es[0] in es;
      assert (es + [(lsn, payload)])[1..] == es[1..] + [(lsn, payload)];
      NewestAlone(es[1..], lsn, payload);
    }
  }

  /** `MemoryWal`. */
  class MemoryWal {
    var last: nat
    var entries: seq<Record>

    function Value(): Memory
      reads this
    {
      Memory(last, entries)
    }

    constructor ()
      ensures Value() == EmptyMemory
    {
      last, entries := 0, [];
    }

    method Append(payload: Bytes) returns (lsn: nat)
      modifies this
      ensures Value() == MemAppend(old(Value()), payload) && lsn == old(last) + 1
      ensures (forall r :: r in old(entries) ==> r.0 <= old(last)) ==> From(entries, lsn) == [(lsn, payload)]
    {
      last := last + 1;
      lsn := last;
      if forall r :: r in entries ==> r.0 < lsn { NewestAlone(entries, lsn, payload); }
      entries := entries + [(lsn, payload)];
    }

    method IterFrom(lsn: nat) returns (out: seq<Record>)
      ensures out == From(entries, lsn)
    {
      var start := FindStart(entries, lsn);
      out := entries[start..];
    }

    method TruncateBefore(lsn: nat)
      modifies this
      ensures Value() == MemTruncate(old(Value()), lsn)
    {
      var cut := FindStart(entries, lsn);
      entries := entries[cut..];
    }
  }

  method FindStart(es: seq<Record>, lsn: nat) returns (n: nat)
    ensures n == PartitionPoint(es, lsn)
  {
    n := 0;
    while n < |es| && es[n].0 < lsn
      invariant n <= |es| && PartitionPoint(es, lsn) == n + PartitionPoint(es[n..], lsn)
    {
      n := n + 1;
    }
  }

  /** Keeps the records numbered `lo` or above. */
  method RetainFrom(es: seq<Record>, lo: nat) returns (out: seq<Record>)
    ensures out == Retain(es, lo)
  {
    out := [];
    for i := 0 to |es|
      invariant out == Retain(es[..i], lo)
    {
      assert es[..i + 1][..i] == es[..i];
      if es[i].0 >= lo { out := out + [es[i]]; }
    }
    assert es[..|es|] == es;
  }

  /** One turn of the loop over the rows of a table. */
  lemma ReadTurn(sum: Checksum, table: map<nat, Bytes>)
    requires table != map[]
    ensures var l := Least(table.Keys);
      var p, rest := Unseal(sum, l, table[l]), ReadRows(sum, table - {l});
      && |table - {l}| < |table|
      && (p.Err? ==> ReadRows(sum, table) == Err(p.error))
      && (p.Ok? && rest.Err? ==> ReadRows(sum, table) == rest)
      && (p.Ok? && rest.Ok? ==> ReadRows(sum, table) == Ok([(l, p.value)] + rest.value))
  {
  }

  /** The loop over the rows of a table, in key order. */
  method ReadTable(sum: Checksum, rows: map<nat, Bytes>) returns (r: Result<seq<Record>, WalError>)
    ensures r == ReadRows(sum, rows)
  {
    hide Unseal, ReadRows;
    var out: seq<Record> := [];
    var table := rows;
    while table != map[]
      invariant ReadRows(sum, table).Err? ==> ReadRows(sum, rows) == ReadRows(sum, table)
      invariant ReadRows(sum, table).Ok? ==>
        ReadRows(sum, rows).Ok? && ReadRows(sum, rows).value == out + ReadRows(sum, table).value
      decreases |table|
    {
      ReadTurn(sum, table);
      var l := Least(table.Keys);
      var p := Unseal(sum, l, table[l]);
      if p.Err? { return Err(p.error); }
      out := out + [(l, p.value)];
      table := table - {l};
    }
    EmptyTable(sum);
    assert table == map[] && ReadRows(sum, rows).value == out;
    return Ok(out);
  }

  lemma EmptyTable(sum: Checksum)
    ensures ReadRows(sum, map[]) == Ok([])
  {
  }

  /** `DiskWal`: two tables, and the state behind the mutex. */
  class DiskWal {
    const sum: Checksum
    var rows: map<nat, Bytes>
    var meta: Option<nat>
    var next: nat
    var buffer: seq<Record>
    var phase: Phase
    var cutting: Option<nat>

    function Value(): Disk
      reads this
    {
      Disk(rows, meta, next, buffer, phase, cutting)
    }

    /** `open` on existing tables. */
    constructor Open(sum: Checksum, rows: map<nat, Bytes>, meta: Option<nat>)
      ensures Value() == Disk(rows, meta, OpenNext(rows, meta), [], Quiet, None) && this.sum == sum
    {
      this.sum := sum;
      this.rows, this.meta, buffer, phase, cutting := rows, meta, [], Quiet, None;
      if meta.Some? {
        next := meta.value;
      } else if rows == map[] {
        next := 1;
      } else {
        var last := LastKey(rows);
        next := SatAdd64(last, 1);
      }
    }

    /** `append`. */
    method Append(payload: Bytes) returns (lsn: nat)
      modifies this
      ensures Value() == DiskStep(sum, old(Value()), Event.Append(payload)) && lsn == old(next)
      ensures buffer[|buffer| - 1] == (lsn, payload) && next > lsn && old(buffer) <= buffer
    {
      lsn := next;
      next := next + 1;
      buffer := buffer + [(lsn, payload)];
    }

    /** The first part of `flush`: a copy of the buffer under the lock. */
    method BeginFlush()
      modifies this
      ensures Value() == DiskStep(sum, old(Value()), Event.BeginFlush)
      ensures phase.Snapshotted? && old(phase.Quiet?) ==> phase.batch == buffer && phase.target == next
      ensures buffer == [] ==> phase == old(phase)
    {
      if buffer != [] { phase := Snapshotted(buffer, next); }
    }

    /** The second part: one transaction on both tables. */
    method CommitFlush()
      requires phase.Snapshotted?
      modifies this
      ensures Value() == DiskStep(sum, old(Value()), Event.CommitFlush)
    {
      var batch := phase.batch;
      var table := rows;
      for i := 0 to |batch|
        invariant table == InsertRows(sum, rows, batch[..i])
      {
        assert batch[..i + 1][..i] == batch[..i];
        table := table[batch[i].0 := sum(batch[i].1) + batch[i].1];
      }
      assert batch[..|batch|] == batch;
      rows, meta, phase := table, Some(phase.target), Committed(phase.target);
    }

    /** The third part: what was committed leaves the buffer. */
    method DrainFlush()
      requires phase.Committed?
      modifies this
      ensures Value() == DiskStep(sum, old(Value()), Event.DrainFlush)
    {
      buffer := RetainFrom(buffer, phase.mark);
      phase := Quiet;
    }

    /** `flush` with nothing in between: everything in the buffer becomes durable. */
    method Flush()
      requires phase.Quiet?
      modifies this
      ensures old(buffer) == [] ==> Value() == old(Value())
      ensures old(buffer) != [] ==>
        Value() == Disk(InsertRows(sum, old(rows), old(buffer)), Some(old(next)), old(next), Retain(old(buffer), old(next)), Quiet, old(cutting))
    {
      BeginFlush();
      if phase.Snapshotted? {
        CommitFlush();
        DrainFlush();
      }
    }

    /** `iter_from`. */
    method IterFrom(lsn: nat) returns (r: Result<seq<Record>, WalError>)
      ensures r == Wal.IterFrom(sum, Value(), lsn)
    {
      var out := ReadTable(sum, RowsFrom(rows, lsn));
      if out.Err? { return Err(out.error); }
      var buffered := RetainFrom(buffer, lsn);
      return Ok(SortDedup(out.value + buffered));
    }

    /** The first half of `truncate_before`: one transaction on the rows. */
    method CutRows(lsn: nat)
      modifies this
      ensures Value() == DiskStep(sum, old(Value()), Event.CutRows(lsn))
      ensures forall l :: l in rows ==> l >= lsn
    {
      if lsn == 0 { return; }
      var keys := set l | l in rows && l < lsn;
      var table := rows;
      while keys != {}
        invariant forall l :: l in table <==> l in rows && (l >= lsn || l in keys)
        invariant forall l :: l in table ==> table[l] == rows[l]
      {
        var k :| k in keys;
        table := table - {k};
        keys := keys - {k};
      }
      assert table == RowsFrom(rows, lsn);
      rows, cutting := table, Some(lsn);
    }

    /** The second half: the buffer, under the lock. */
    method CutBuffer()
      requires cutting.Some?
      modifies this
      ensures Value() == DiskStep(sum, old(Value()), Event.CutBuffer)
    {
      buffer := RetainFrom(buffer, cutting.value);
      cutting := None;
    }

    /** `truncate_before` with nothing in between. */
    method TruncateBefore(lsn: nat)
      requires cutting.None?
      modifies this
      ensures lsn == 0 ==> Value() == old(Value())
      ensures lsn > 0 ==> Value() == old(Value()).(rows := RowsFrom(old(rows), lsn), buffer := Retain(old(buffer), lsn))
    {
      CutRows(lsn);
      if cutting.Some? { CutBuffer(); }
    }
  }

  method LastKey(rows: map<nat, Bytes>) returns (k: nat)
    requires rows != map[]
    ensures k == Greatest(rows.Keys)
  {
    var rest := rows.Keys;
    k :| k in rest;
    rest := rest - {k};
    while rest != {}
      invariant k in rows && forall l :: l in rows ==> l <= k || l in rest
    {
      var l :| l in rest;
      if l in rows && l > k { k := l; }
      rest := rest - {l};
    }
  }
}
