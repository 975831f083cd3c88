/**
 * The write-ahead log: the buffered one on disk (`storage/disk.rs`) against the plain one in memory
 * (`storage/memory.rs`). A flush is three steps, taken with other calls in between: it copies the
 * buffer, commits the copy in one transaction, and drains what it copied. A truncation is two: it cuts
 * the rows in one transaction, then the buffer.
 */
module Wal {
  import opened Common

  type Record = (nat, Bytes)

  // ---------------------------------------------------------------------------
  // The log in memory

  /** `MemoryWal`: the last number given out, and the records in order. */
  datatype Memory = Memory(last: nat, entries: seq<Record>)

  predicate Ascending(es: seq<Record>) {
    forall i, j :: 0 <= i < j < |es| ==> es[i].0 < es[j].0
  }

  /** `partition_point(|(l, _)| l < lsn)`. */
  function PartitionPoint(es: seq<Record>, lsn: nat): (n: nat)
    ensures n <= |es|
  {
    if es == [] || es[0].0 >= lsn then 0 else 1 + PartitionPoint(es[1..], lsn)
  }

  /** The records `iter_from` lists, and those `truncate_before` leaves. */
  function From(es: seq<Record>, lsn: nat): seq<Record> { es[PartitionPoint(es, lsn)..] }

  function MemAppend(m: Memory, payload: Bytes): Memory {
    Memory(m.last + 1, m.entries + [(m.last + 1, payload)])
  }

  function MemTruncate(m: Memory, lsn: nat): Memory { m.(entries := From(m.entries, lsn)) }

  // ---------------------------------------------------------------------------
  // The log on disk

  const CHECKSUM_LEN: nat := 8

  type Checksum = Bytes -> Bytes

  /** A checksum function yields eight bytes. */
  ghost predicate Fits(sum: Checksum) { forall p :: |sum(p)| == CHECKSUM_LEN }

  datatype Phase = Quiet | Snapshotted(batch: seq<Record>, target: nat) | Committed(mark: nat)

  /**
   * The two tables, and what is lost in a crash: the next number, the buffer, the flush under way, and
   * the cut of a truncation that has not reached the buffer yet.
   */
  datatype Disk = Disk(rows: map<nat, Bytes>, meta: Option<nat>, next: nat, buffer: seq<Record>, phase: Phase, cutting: Option<nat>)

  const EmptyDisk: Disk := Disk(map[], None, 1, [], Quiet, None)
  const EmptyMemory: Memory := Memory(0, [])

  function Seal(sum: Checksum, p: Bytes): Bytes { sum(p) + p }

  datatype WalError = TooShort(lsn: nat) | BadChecksum(lsn: nat)

  function Unseal(sum: Checksum, lsn: nat, raw: Bytes): Result<Bytes, WalError> {
    if |raw| < CHECKSUM_LEN then Err(TooShort(lsn))
    else if raw[..CHECKSUM_LEN] != sum(raw[CHECKSUM_LEN..]) then Err(BadChecksum(lsn))
    else Ok(raw[CHECKSUM_LEN..])
  }

  /** `buffer.retain(|(l, _)| l >= lo)`. */
  function Retain(es: seq<Record>, lo: nat): seq<Record> {
    if es == [] then []
    else Retain(es[..|es| - 1], lo) + if es[|es| - 1].0 >= lo then [es[|es| - 1]] else []
  }

  function InsertRows(sum: Checksum, rows: map<nat, Bytes>, batch: seq<Record>): map<nat, Bytes> {
    if batch == [] then rows
    else
      var r := batch[|batch| - 1];
      InsertRows(sum, rows, batch[..|batch| - 1])[r.0 := Seal(sum, r.1)]
  }

  /** The next number `open` reads back. */
  ghost function OpenNext(rows: map<nat, Bytes>, meta: Option<nat>): nat {
    if meta.Some? then meta.value
    else if rows == map[] then 1
    else SatAdd64(Greatest(rows.Keys), 1)
  }

  lemma {:induction false} GreatestExists(s: set<nat>)
    requires s != {}
    ensures exists x :: x in s && forall y :: y in s ==> y <= x
    decreases s
  {
    var a :| a in s;
    var upper := set y | y in s && y > a;
    if upper == {} {
      assert forall y :: y in s ==> y in upper || y <= a;
    } else {
      assert a !in upper;
      GreatestExists(upper);
      var m :| m in upper && forall y :: y in upper ==> y <= m;
      assert forall y :: y in s ==> y in upper || y <= m;
    }
  }

  ghost function Greatest(s: set<nat>): (x: nat)
    requires s != {}
    ensures x in s && forall y :: y in s ==> y <= x
  {
    GreatestExists(s);
    var x :| x in s && forall y :: y in s ==> y <= x;
    x
  }

  datatype Event = Append(payload: Bytes) | BeginFlush | CommitFlush | DrainFlush | CutRows(cut: nat) | CutBuffer | Crash

  /** One flusher and one truncator at a time, each taking its steps in order. */
  predicate Enabled(s: Disk, e: Event) {
    match e
    case BeginFlush => s.phase.Quiet?
    case CommitFlush => s.phase.Snapshotted?
    case DrainFlush => s.phase.Committed?
    case CutRows(_) => s.cutting.None?
    case CutBuffer => s.cutting.Some?
    case _ => true
  }

  /**
   * The step does not interfere with the other operation under way: no cut through records a flush
   * has copied, no copy of records a truncation is about to drop, and no append below its cut.
   */
  predicate Undisturbed(s: Disk, e: Event) {
    match e
    case Append(_) => s.cutting.Some? ==> s.cutting.value <= s.next
    case BeginFlush => s.cutting.Some? ==> NoneBelow(s.buffer, s.cutting.value)
    case CutRows(cut) => s.phase.Snapshotted? ==> NoneBelow(s.phase.batch, cut)
    case _ => true
  }

  predicate NoneBelow(es: seq<Record>, cut: nat) { forall i :: 0 <= i < |es| ==> es[i].0 >= cut }

  function RowsFrom(rows: map<nat, Bytes>, lo: nat): map<nat, Bytes> { map l | l in rows && l >= lo :: rows[l] }

  ghost function DiskStep(sum: Checksum, s: Disk, e: Event): Disk {
    match e
    case Append(p) => s.(next := s.next + 1, buffer := s.buffer + [(s.next, p)])
    case BeginFlush => if s.buffer == [] then s else s.(phase := Snapshotted(s.buffer, s.next))
    case CommitFlush =>
      if s.phase.Snapshotted? then
        s.(rows := InsertRows(sum, s.rows, s.phase.batch), meta := Some(s.phase.target), phase := Committed(s.phase.target))
      else s
    case DrainFlush => if s.phase.Committed? then s.(buffer := Retain(s.buffer, s.phase.mark), phase := Quiet) else s
    case CutRows(cut) => if cut == 0 then s else s.(rows := RowsFrom(s.rows, cut), cutting := Some(cut))
    case CutBuffer => if s.cutting.Some? then s.(buffer := Retain(s.buffer, s.cutting.value), cutting := None) else s
    case Crash => Disk(s.rows, s.meta, OpenNext(s.rows, s.meta), [], Quiet, None)
  }

  /** The rows of a table in key order, each checked and opened. */
  function ReadRows(sum: Checksum, rows: map<nat, Bytes>): Result<seq<Record>, WalError> {
    if rows == map[] then Ok([])
    else
      var l := Least(rows.Keys);
      match Unseal(sum, l, rows[l])
      case Err(e) => Err(e)
      case Ok(p) =>
        match ReadRows(sum, rows - {l})
        case Err(e) => Err(e)
        case Ok(rest) => Ok([(l, p)] + rest)
  }

  /** One record put in its place; a record with the same number that is already there stays. */
  function Insert(es: seq<Record>, r: Record): seq<Record> {
    if es == [] then [r]
    else
      var last := es[|es| - 1];
      if r.0 > last.0 then es + [r] else if r.0 == last.0 then es else Insert(es[..|es| - 1], r) + [last]
  }

  /** `sort_by_key` (stable), then `dedup_by_key`, which keeps the first of equal keys. */
  function SortDedup(es: seq<Record>): seq<Record> {
    if es == [] then [] else Insert(SortDedup(es[..|es| - 1]), es[|es| - 1])
  }

  /** `DiskWal::iter_from`. */
  function IterFrom(sum: Checksum, s: Disk, lsn: nat): Result<seq<Record>, WalError> {
    match ReadRows(sum, RowsFrom(s.rows, lsn))
    case Err(e) => Err(e)
    case Ok(rows) => Ok(SortDedup(rows + Retain(s.buffer, lsn)))
  }

  // ---------------------------------------------------------------------------
  // Lists

  lemma {:induction false} FromExact(es: seq<Record>, lsn: nat)
    requires Ascending(es)
    ensures Ascending(From(es, lsn)) && forall r :: r in From(es, lsn) <==> r in es && r.0 >= lsn
  {
    if es != [] && es[0].0 < lsn {
      FromExact(es[1..], lsn);
      assert From(es, lsn) == From(es[1..], lsn);
    }
  }

  lemma {:induction false} RetainExact(es: seq<Record>, lo: nat)
    requires Ascending(es)
    ensures Ascending(Retain(es, lo)) && forall r :: r in Retain(es, lo) <==> r in es && r.0 >= lo
  {
    if es == [] {
    } else {
      var front, last := es[..|es| - 1], es[|es| - 1];
      RetainExact(front, lo);
      assert es == front + [last];
      var k := Retain(front, lo);
      forall i | 0 <= i < |k| ensures k[i].0 < last.0 {
        assert k[i] in front;
      }
    }
  }

  lemma {:induction false} InsertExact(es: seq<Record>, r: Record)
    requires Ascending(es)
    ensures Ascending(Insert(es, r))
    ensures forall x :: x in Insert(es, r) ==> x in es || x == r
    ensures forall x :: x in es ==> x in Insert(es, r)
    ensures exists i :: 0 <= i < |Insert(es, r)| && Insert(es, r)[i].0 == r.0
  {
    if es == [] {
      assert Insert(es, r)[0] == r;
    } else {
      var front, last := es[..|es| - 1], es[|es| - 1];
      assert es == front + [last];
      if r.0 > last.0 {
        assert Insert(es, r)[|es|] == r;
      } else if r.0 == last.0 {
        assert Insert(es, r)[|es| - 1] == last;
      } else {
        InsertExact(front, r);
        var t := Insert(front, r);
        forall i | 0 <= i < |t| ensures t[i].0 < last.0 {
          assert t[i] in t;
        }
        var i :| 0 <= i < |t| && t[i].0 == r.0;
        assert Insert(es, r)[i] == t[i];
      }
    }
  }

  predicate HasKey(es: seq<Record>, l: nat) { exists i :: 0 <= i < |es| && es[i].0 == l }

  /** Sorting and removing duplicates invents nothing and loses no number. */
  lemma {:induction false} SortDedupExact(es: seq<Record>)
    ensures Ascending(SortDedup(es))
    ensures forall x :: x in SortDedup(es) ==> x in es
    ensures forall i :: 0 <= i < |es| ==> HasKey(SortDedup(es), es[i].0)
  {
    if es == [] {
    } else {
      var front, last := es[..|es| - 1], es[|es| - 1];
      SortDedupExact(front);
      var t, r := SortDedup(front), SortDedup(es);
      InsertExact(t, last);
      forall i | 0 <= i < |es| ensures HasKey(r, es[i].0) {
        if i < |front| {
          assert HasKey(t, front[i].0);
          var k :| 0 <= k < |t| && t[k].0 == front[i].0;
          assert t[k] in r;
        }
      }
    }
  }

  lemma SameLast(a: seq<Record>, b: seq<Record>)
    requires Ascending(a) && Ascending(b) && a != [] && forall x :: x in a <==> x in b
    ensures b != [] && a[|a| - 1] == b[|b| - 1]
  {
    var x := a[|a| - 1];
    assert x in b;
    var y := b[|b| - 1];
    assert y in a;
    var i :| 0 <= i < |a| && a[i] == y;
    var j :| 0 <= j < |b| && b[j] == x;
  }

  lemma DropLast(a: seq<Record>, x: Record)
    requires Ascending(a) && a != [] && a[|a| - 1] == x
    ensures Ascending(a[..|a| - 1]) && a == a[..|a| - 1] + [x]
    ensures forall z :: z in a[..|a| - 1] <==> z in a && z != x
  {
    var front := a[..|a| - 1];
    assert a == front + [x];
    assert x !in front;
  }

  /** Two ascending lists of the same records are equal. */
  lemma {:induction false} AscendingDetermined(a: seq<Record>, b: seq<Record>)
    requires Ascending(a) && Ascending(b) && forall x :: x in a <==> x in b
    ensures a == b
    decreases |a|
  {
    hide Ascending;
    assert |b| > 0 ==> b[0] in a;
    if a == [] {
    } else {
      SameLast(a, b);
      var x := a[|a| - 1];
      var a', b' := a[..|a| - 1], b[..|b| - 1];
      DropLast(a, x);
      DropLast(b, x);
      forall z ensures z in a' <==> z in b' {
        assert z in a' <==> z in a && z != x;
        assert z in b' <==> z in b && z != x;
      }
      AscendingDetermined(a', b');
    }
  }

  // ---------------------------------------------------------------------------
  // Rows

  lemma Unsealed(sum: Checksum, lsn: nat, p: Bytes)
    requires Fits(sum)
    ensures Unseal(sum, lsn, Seal(sum, p)) == Ok(p)
  {
    assert Seal(sum, p)[..CHECKSUM_LEN] == sum(p) && Seal(sum, p)[CHECKSUM_LEN..] == p;
  }

  /** Every row opens to a record of the list. */
  predicate RowsIn(sum: Checksum, rows: map<nat, Bytes>, es: seq<Record>) {
    forall l :: l in rows ==> Unseal(sum, l, rows[l]).Ok? && (l, Unseal(sum, l, rows[l]).value) in es
  }

  lemma {:induction false} InsertRowsExact(sum: Checksum, rows: map<nat, Bytes>, batch: seq<Record>, es: seq<Record>)
    requires Fits(sum) && RowsIn(sum, rows, es) && forall r :: r in batch ==> r in es
    ensures RowsIn(sum, InsertRows(sum, rows, batch), es)
    ensures forall l :: l in InsertRows(sum, rows, batch) <==> l in rows || HasKey(batch, l)
  {
    if batch == [] {
    } else {
      var front, r := batch[..|batch| - 1], batch[|batch| - 1];
      assert batch == front + [r];
      InsertRowsExact(sum, rows, front, es);
      Unsealed(sum, r.0, r.1);
      forall l ensures HasKey(batch, l) <==> HasKey(front, l) || l == r.0 {
        if HasKey(front, l) {
          var i :| 0 <= i < |front| && front[i].0 == l;
          assert batch[i].0 == l;
        }
        if l == r.0 { assert batch[|front|].0 == l; }
      }
    }
  }

  lemma {:induction false} ReadRowsExact(sum: Checksum, rows: map<nat, Bytes>, es: seq<Record>)
    requires RowsIn(sum, rows, es)
    ensures ReadRows(sum, rows).Ok?
    ensures forall r :: r in ReadRows(sum, rows).value ==> r in es && r.0 in rows
    ensures forall l :: l in rows ==> HasKey(ReadRows(sum, rows).value, l)
    decreases |rows|
  {
    hide Unseal, HasKey;
    if rows != map[] {
      var l := Least(rows.Keys);
      assert (rows - {l}).Keys == rows.Keys - {l};
      ReadRowsExact(sum, rows - {l}, es);
      PrependKeys(l, Unseal(sum, l, rows[l]).value, ReadRows(sum, rows - {l}).value);
    }
  }

  lemma PrependKeys(l: nat, p: Bytes, rest: seq<Record>)
    ensures forall k :: HasKey([(l, p)] + rest, k) <==> k == l || HasKey(rest, k)
  {
    var all := [(l, p)] + rest;
    assert all[0].0 == l;
    forall k | HasKey(rest, k) ensures HasKey(all, k) {
      var i :| 0 <= i < |rest| && rest[i].0 == k;
      assert all[i + 1].0 == k;
    }
    forall k | HasKey(all, k) ensures k == l || HasKey(rest, k) {
      var i :| 0 <= i < |all| && all[i].0 == k;
      assert i > 0 ==> rest[i - 1].0 == k;
    }
  }
}
