/** What reading the log on disk lists, said by the calls made on it alone. */
module WalHistory {
  import opened Common
  import opened Wal
  import opened WalRefinement

  /** The payloads appended, in order; the first has number 1. */
  function Appended(es: seq<Event>): seq<Bytes> {
    if es == [] then []
    else Appended(es[..|es| - 1]) + if es[|es| - 1].Append? then [es[|es| - 1].payload] else []
  }

  /** A truncation from above the number, called when the record was already there. */
  function WasCut(es: seq<Event>, n: nat): bool {
    es != [] && (WasCut(es[..|es| - 1], n)
                 || (es[|es| - 1].CutRows? && es[|es| - 1].cut > n && n <= |Appended(es[..|es| - 1])|))
  }

  predicate NoCrash(es: seq<Event>) { forall i :: 0 <= i < |es| ==> !es[i].Crash? }

  /** The record was appended and not cut since. */
  predicate Alive(es: seq<Event>, r: Record) {
    1 <= r.0 <= |Appended(es)| && r.1 == Appended(es)[r.0 - 1] && !WasCut(es, r.0)
  }

  lemma {:induction false} MemoryHolds(sum: Checksum, es: seq<Event>)
    requires NoCrash(es)
    ensures var m := Run(sum, es).1;
      m.last == |Appended(es)| && Ascending(m.entries) && forall r :: r in m.entries <==> Alive(es, r)
  {
    hide DiskStep, From;
    if es == [] {
    } else {
      var front, e := es[..|es| - 1], es[|es| - 1];
      MemoryHolds(sum, front);
      var m := Run(sum, front).1;
      assert Run(sum, es).1 == MemStep(Run(sum, front).0, m, e);
      match e
      case Append(p) =>
        AliveAppend(es, front, p);
        AppendNumbered(m, p);
      case CutRows(cut) =>
        FromExact(m.entries, cut);
      case _ =>
    }
  }

  lemma AliveAppend(es: seq<Event>, front: seq<Event>, p: Bytes)
    requires es == front + [Append(p)]
    ensures forall r :: Alive(es, r) <==> Alive(front, r) || r == (|Appended(front)| + 1, p)
  {
    assert es[..|es| - 1] == front;
    NotCutYet(front, |Appended(front)| + 1);
  }

  /** A number not yet given out has not been cut. */
  lemma {:induction false} NotCutYet(es: seq<Event>, n: nat)
    requires n > |Appended(es)|
    ensures !WasCut(es, n)
  {
    if es == [] {
    } else {
      NotCutYet(es[..|es| - 1], n);
    }
  }

  /**
   * Over every run without interference and without a crash, reading from a number lists, in order and
   * with its payload, exactly every record appended so far from that number on that no later
   * truncation cut.
   */
  lemma ReadsWhatWasAppended(sum: Checksum, es: seq<Event>, lsn: nat)
    requires Fits(sum) && Runs(sum, es) && Calm(sum, es) && NoCrash(es)
    requires Run(sum, es).0.cutting.Some? ==> lsn >= Run(sum, es).0.cutting.value
    ensures var read := IterFrom(sum, Run(sum, es).0, lsn);
      && read.Ok? && Ascending(read.value)
      && forall r: Record :: r in read.value <==> Alive(es, r) && r.0 >= lsn
  {
    hide Run, Runs, IterFrom, From;
    DiskRefinesMemory(sum, es, lsn);
    MemoryHolds(sum, es);
    FromExact(Run(sum, es).1.entries, lsn);
  }

  // ---------------------------------------------------------------------------
  // What a crash leaves

  /** How much had been appended when the last flush copied the buffer. */
  function Copied(es: seq<Event>): nat {
    if es == [] then 0 else if es[|es| - 1].BeginFlush? then |Appended(es[..|es| - 1])| else Copied(es[..|es| - 1])
  }

  /** How much the last flush that was committed had copied. */
  function Durable(es: seq<Event>): nat {
    if es == [] then 0 else if es[|es| - 1].CommitFlush? then Copied(es[..|es| - 1]) else Durable(es[..|es| - 1])
  }

  lemma {:induction false} MarkIsDurable(sum: Checksum, es: seq<Event>)
    requires NoCrash(es) && Runs(sum, es)
    ensures var s := Run(sum, es).0;
      && s.next == |Appended(es)| + 1 && Mark(s) == Durable(es) + 1
      && (s.phase.Snapshotted? ==> s.phase.target == Copied(es) + 1)
  {
    hide InsertRows, Retain, RowsFrom, MemStep;
    if es == [] {
    } else {
      MarkIsDurable(sum, es[..|es| - 1]);
    }
  }

  /**
   * After a crash at any point of such a run, reading from a number lists exactly the records that a
   * committed flush had copied and no truncation cut.
   */
  lemma CrashKeepsFlushed(sum: Checksum, es: seq<Event>, lsn: nat)
    requires Fits(sum) && Runs(sum, es) && Calm(sum, es) && NoCrash(es)
    ensures var read := IterFrom(sum, DiskStep(sum, Run(sum, es).0, Crash), lsn);
      && read.Ok? && Ascending(read.value)
      && forall r: Record :: r in read.value <==> Alive(es, r) && r.0 >= lsn && r.0 <= Durable(es)
  {
    hide Run, Runs, IterFrom, From, Below, DiskStep;
    CrashKeepsCommitted(sum, es, lsn);
    MarkIsDurable(sum, es);
    MemoryHolds(sum, es);
    var (s, m) := Run(sum, es);
    BelowExact(m.entries, Mark(s));
    FromExact(Below(m.entries, Mark(s)), lsn);
  }

  lemma {:induction false} OneMore(sum: Checksum, es: seq<Event>, e: Event)
    ensures Run(sum, es + [e]).0 == DiskStep(sum, Run(sum, es).0, e)
    ensures Appended(es + [e]) == Appended(es) + (if e.Append? then [e.payload] else [])
    ensures Copied(es + [e]) == (if e.BeginFlush? then |Appended(es)| else Copied(es))
    ensures Durable(es + [e]) == if e.CommitFlush? then Copied(es) else Durable(es)
  {
    hide DiskStep, MemStep;
    assert (es + [e])[..|es|] == es;
  }

  /** A flush makes everything appended before it durable; with an empty buffer it already was. */
  lemma FlushMakesDurable(sum: Checksum, es: seq<Event>)
    requires Fits(sum) && Runs(sum, es) && Calm(sum, es) && NoCrash(es) && Run(sum, es).0.phase.Quiet?
    ensures Run(sum, es).0.buffer != [] ==>
      && Run(sum, es + [BeginFlush] + [CommitFlush]).0.phase.Committed?
      && Durable(es + [BeginFlush] + [CommitFlush]) == |Appended(es)|
    ensures Run(sum, es).0.buffer == [] ==> forall r: Record :: Alive(es, r) ==> r.0 <= Durable(es)
  {
    hide Run, Runs, Calm, Appended, Copied, Durable, Alive, Unseal, InsertRows;
    OneMore(sum, es, BeginFlush);
    OneMore(sum, es + [BeginFlush], CommitFlush);
    RunSim(sum, es);
    MarkIsDurable(sum, es);
    MemoryHolds(sum, es);
  }

  // ---------------------------------------------------------------------------
  // Damaged rows and the next number

  /** A row as it is written: the checksum of a payload, then the payload. */
  ghost predicate Intact(sum: Checksum, raw: Bytes) { exists p :: raw == sum(p) + p }

  lemma UnsealIff(sum: Checksum, lsn: nat, raw: Bytes)
    requires Fits(sum)
    ensures forall p :: Unseal(sum, lsn, raw) == Ok(p) <==> raw == sum(p) + p
    ensures Unseal(sum, lsn, raw).Ok? <==> Intact(sum, raw)
    ensures Unseal(sum, lsn, raw).Err? ==> Unseal(sum, lsn, raw).error == if |raw| < 8 then TooShort(lsn) else BadChecksum(lsn)
  {
    forall p | raw == sum(p) + p ensures Unseal(sum, lsn, raw) == Ok(p) {
      assert raw[..8] == sum(p) && raw[8..] == p;
    }
    if Unseal(sum, lsn, raw).Ok? {
      assert raw == raw[..8] + raw[8..];
      assert raw == sum(raw[8..]) + raw[8..];
    }
  }

  lemma {:induction false} ReadRowsIff(sum: Checksum, rows: map<nat, Bytes>)
    requires Fits(sum)
    ensures ReadRows(sum, rows).Ok? <==> forall l :: l in rows ==> Intact(sum, rows[l])
    ensures ReadRows(sum, rows).Err? ==>
      exists l :: l in rows && !Intact(sum, rows[l]) && (forall k :: k in rows && k < l ==> Intact(sum, rows[k]))
        && ReadRows(sum, rows) == Err(if |rows[l]| < 8 then TooShort(l) else BadChecksum(l))
    decreases |rows|
  {
    hide Intact, Unseal;
    if rows != map[] {
      var l := Least(rows.Keys);
      UnsealIff(sum, l, rows[l]);
      var rest := rows - {l};
      assert rest.Keys == rows.Keys - {l};
      ReadRowsIff(sum, rest);
      assert forall k :: k in rest ==> k in rows && rest[k] == rows[k];
      assert forall k :: k in rows ==> k == l || k in rest;
      if (forall k :: k in rows ==> Intact(sum, rows[k])) { assert l in rows; }
      if Unseal(sum, l, rows[l]).Ok? && ReadRows(sum, rest).Err? {
        var b :| b in rest && !Intact(sum, rest[b]) && (forall k :: k in rest && k < b ==> Intact(sum, rest[k]))
          && ReadRows(sum, rest) == Err(if |rest[b]| < 8 then TooShort(b) else BadChecksum(b));
        assert b in rows && rows[b] == rest[b];
        forall k | k in rows && k < b ensures Intact(sum, rows[k]) { if k != l { assert k in rest; } }
      }
    }
  }

  /**
   * Reading fails if and only if a row from the number on is damaged, whatever the log went through;
   * the first damaged row is reported.
   */
  lemma DamageReportedIff(sum: Checksum, s: Disk, lsn: nat)
    requires Fits(sum)
    ensures IterFrom(sum, s, lsn).Ok? <==> forall l :: l in s.rows && l >= lsn ==> Intact(sum, s.rows[l])
    ensures IterFrom(sum, s, lsn).Err? ==>
      exists l :: l in s.rows && l >= lsn && !Intact(sum, s.rows[l])
        && (forall k :: k in s.rows && lsn <= k < l ==> Intact(sum, s.rows[k]))
        && IterFrom(sum, s, lsn) == Err(if |s.rows[l]| < 8 then TooShort(l) else BadChecksum(l))
  {
    hide Intact, ReadRows, SortDedup, Retain;
    var rows := RowsFrom(s.rows, lsn);
    ReadRowsIff(sum, rows);
    if ReadRows(sum, rows).Err? {
      var l :| l in rows && !Intact(sum, rows[l]) && (forall k :: k in rows && k < l ==> Intact(sum, rows[k]))
        && ReadRows(sum, rows) == Err(if |rows[l]| < 8 then TooShort(l) else BadChecksum(l));
      assert l in s.rows && l >= lsn && s.rows[l] == rows[l];
      forall k | k in s.rows && lsn <= k < l ensures Intact(sum, s.rows[k]) { assert k in rows; }
    } else {
      forall l | l in s.rows && l >= lsn ensures Intact(sum, s.rows[l]) { assert l in rows; }
    }
  }

  /** The next number after opening: the stored one, or one above the greatest row, or 1. */
  lemma OpensAt(rows: map<nat, Bytes>, meta: Option<nat>)
    ensures meta.Some? ==> OpenNext(rows, meta) == meta.value
    ensures meta.None? && rows == map[] ==> OpenNext(rows, meta) == 1
    ensures meta.None? && rows != map[] ==>
      exists l :: l in rows && (forall k :: k in rows ==> k <= l) && OpenNext(rows, meta) == Min(l + 1, U64_MAX)
  {
    if rows != map[] {
      var l := Greatest(rows.Keys);
      assert l in rows;
    }
  }
}
