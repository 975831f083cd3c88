/** Short runs of the log on disk in which one operation interferes with another. */
module WalLimits {
  import opened Common
  import opened Wal
  import opened WalRefinement

  /** A run and one more event. */
  lemma OneMore(sum: Checksum, es: seq<Event>, e: Event)
    ensures Run(sum, es + [e]) == (DiskStep(sum, Run(sum, es).0, e), MemStep(Run(sum, es).0, Run(sum, es).1, e))
    ensures Runs(sum, es + [e]) <==> Runs(sum, es) && Enabled(Run(sum, es).0, e)
    ensures Calm(sum, es + [e]) <==> Calm(sum, es) && Undisturbed(Run(sum, es).0, e)
  {
    hide DiskStep, MemStep, Enabled, Undisturbed;
    assert (es + [e])[..|es|] == es;
  }

  lemma Nothing(sum: Checksum)
    ensures Run(sum, []) == (EmptyDisk, EmptyMemory) && Runs(sum, []) && Calm(sum, [])
  {
  }

  function OneRow(sum: Checksum, p: Bytes): map<nat, Bytes> { map[1 := Seal(sum, p)] }

  lemma OneRowListed(sum: Checksum, p: Bytes)
    requires Fits(sum)
    ensures IterFrom(sum, Disk(OneRow(sum, p), Some(2), 2, [], Quiet, None), 0) == Ok([(1, p)])
  {
    Unsealed(sum, 1, p);
    var rows := RowsFrom(OneRow(sum, p), 0);
    assert rows == OneRow(sum, p);
    assert rows.Keys == {1} && rows - {1} == map[];
    assert ReadRows(sum, rows) == Ok([(1, p)] + []);
    assert [(1, p)] + [] == [(1, p)] && [(1, p)][..0] == [];
    assert SortDedup([(1, p)]) == [(1, p)];
  }

  /** The events of a truncation that meets a flush, in two orders. */
  function CutThenCommit(p: Bytes): seq<Event> { [Append(p)] + [BeginFlush] + [CutRows(2)] + [CutBuffer] + [CommitFlush] + [DrainFlush] }
  function CopyBetween(p: Bytes): seq<Event> { [Append(p)] + [CutRows(2)] + [BeginFlush] + [CutBuffer] + [CommitFlush] + [DrainFlush] }

  lemma Appended(sum: Checksum, p: Bytes)
    ensures Run(sum, [Append(p)]) == (Disk(map[], None, 2, [(1, p)], Quiet, None), Memory(1, [(1, p)]))
    ensures Runs(sum, [Append(p)]) && Calm(sum, [Append(p)])
  {
    hide Run, Runs, Calm;
    Nothing(sum);
    OneMore(sum, [], Append(p));
    assert [] + [Append(p)] == [Append(p)];
    assert [] + [(1, p)] == [(1, p)];
  }

  lemma Tails(p: Bytes)
    ensures Retain([(1, p)], 2) == [] && From([(1, p)], 2) == [] && Retain([], 2) == []
    ensures RowsFrom(map[], 2) == map[] && !NoneBelow([(1, p)], 2)
  {
    assert [(1, p)][..0] == [] && [(1, p)][1..] == [];
    assert [(1, p)][0].0 < 2;
  }

  lemma CommitsOne(sum: Checksum, p: Bytes)
    ensures InsertRows(sum, map[], [(1, p)]) == OneRow(sum, p)
  {
    assert [(1, p)][..0] == [];
  }

  /**
   * A truncation between the copy and the commit of a flush is undone: every step is taken in order,
   * the log in memory ends up empty, and the log on disk lists the record that was cut.
   */
  lemma TruncationUndoneByCommit(sum: Checksum, p: Bytes)
    requires Fits(sum)
    ensures Runs(sum, CutThenCommit(p)) && !Calm(sum, CutThenCommit(p))
    ensures Run(sum, CutThenCommit(p)).1.entries == []
    ensures IterFrom(sum, Run(sum, CutThenCommit(p)).0, 0) == Ok([(1, p)])
  {
    hide Run, Runs, Calm, Retain, From, RowsFrom, NoneBelow, InsertRows, IterFrom, Seal;
    var es1: seq<Event> := [Append(p)];
    var es2 := es1 + [BeginFlush];
    var es3 := es2 + [CutRows(2)];
    var es4 := es3 + [CutBuffer];
    var es5 := es4 + [CommitFlush];
    Appended(sum, p);
    Tails(p);
    OneMore(sum, es1, BeginFlush);
    OneMore(sum, es2, CutRows(2));
    OneMore(sum, es3, CutBuffer);
    OneMore(sum, es4, CommitFlush);
    OneMore(sum, es5, DrainFlush);
    CommitsOne(sum, p);
    OneRowListed(sum, p);
  }

  /** The same when the flush starts between the halves of the truncation. */
  lemma TruncationUndoneByCopy(sum: Checksum, p: Bytes)
    requires Fits(sum)
    ensures Runs(sum, CopyBetween(p)) && !Calm(sum, CopyBetween(p))
    ensures Run(sum, CopyBetween(p)).1.entries == []
    ensures IterFrom(sum, Run(sum, CopyBetween(p)).0, 0) == Ok([(1, p)])
  {
    hide Run, Runs, Calm, Retain, From, RowsFrom, NoneBelow, InsertRows, IterFrom, Seal;
    var es1: seq<Event> := [Append(p)];
    var es2 := es1 + [CutRows(2)];
    var es3 := es2 + [BeginFlush];
    var es4 := es3 + [CutBuffer];
    var es5 := es4 + [CommitFlush];
    Appended(sum, p);
    Tails(p);
    OneMore(sum, es1, CutRows(2));
    OneMore(sum, es2, BeginFlush);
    OneMore(sum, es3, CutBuffer);
    OneMore(sum, es4, CommitFlush);
    OneMore(sum, es5, DrainFlush);
    CommitsOne(sum, p);
    OneRowListed(sum, p);
  }

  /** A record appended between the halves of a truncation beyond the end is lost. */
  lemma AppendLostInTruncation(sum: Checksum, p: Bytes)
    ensures var es := [CutRows(2)] + [Append(p)] + [CutBuffer];
      && Runs(sum, es) && !Calm(sum, es)
      && Run(sum, es).1.entries == [(1, p)] && IterFrom(sum, Run(sum, es).0, 0) == Ok([])
  {
    hide Run, Runs, Calm, Retain, RowsFrom;
    Nothing(sum);
    Tails(p);
    assert RowsFrom(map[], 0) == map[] && Retain([], 0) == [] by { EmptyLists(); }
    var es1: seq<Event> := [CutRows(2)];
    assert [] + es1 == es1;
    OneMore(sum, [], CutRows(2));
    OneMore(sum, es1, Append(p));
    OneMore(sum, es1 + [Append(p)], CutBuffer);
    var empty: seq<Record> := [];
    assert empty + [(1, p)] == [(1, p)] && empty + empty == empty;
  }

  lemma EmptyLists()
    ensures RowsFrom(map[], 0) == map[] && Retain([], 0) == []
  {
  }

  /** An iteration whose reads lie on both sides of the commit and drain of a flush misses the record it carried. */
  lemma SplitReadMisses(sum: Checksum, p: Bytes)
    ensures var es := [Append(p)] + [BeginFlush];
      var s := Run(sum, es).0;
      var s' := DiskStep(sum, DiskStep(sum, s, CommitFlush), DrainFlush);
      && Runs(sum, es) && Calm(sum, es) && s.phase.Snapshotted?
      && Run(sum, es).1.entries == [(1, p)] && IterSplit(sum, s, s', 0) == Ok([])
  {
    hide Run, Runs, Calm, Retain, RowsFrom, InsertRows;
    Appended(sum, p);
    Tails(p);
    EmptyLists();
    OneMore(sum, [Append(p)], BeginFlush);
    var empty: seq<Record> := [];
    assert empty + empty == empty;
  }
}
