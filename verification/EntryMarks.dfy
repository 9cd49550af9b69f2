/**
  The alive flags of a directory's latest transaction follow the history of its operations, whatever became of
  the store. So the `dentries` branches never complain about names that the file system keeps apart.
 */
module EntryMarks {
  import opened Types
  import opened Transactions
  import opened Coalescing
  import opened Pipeline
  import opened PipelineProof
  import opened ThreadSteps

  /** The children of a directory; none when it does not exist. */
  function Kids(d: Dir): Children { if d.Present? then d.children else map[] }

  /** A mark is alive exactly when its name is there. */
  ghost predicate Agree(marks: map<Name, Mark>, kids: Children) {
    forall n :: n in marks ==> (marks[n].alive <==> n in kids)
  }

  ghost predicate MarksAt(txs: seq<Tx>, table: map<Ino, nat>, swapped: map<Ino, nat>, d: Ino, kids: Children) {
    forall id :: 0 <= id < |txs| && Latest(txs, table, swapped, d, id) ==> Agree(txs[id].dentries, kids)
  }

  ghost predicate MarksOk(s: State, d: Ino) {
    LegalRun(Based(s, d), History(s, d)) ==>
      MarksAt(s.txs, s.table, s.swapped, d, Kids(Fold(Based(s, d), History(s, d))))
  }

  // ---- What a merge does to the marks ----

  lemma EntriesAgree(marks: map<Name, Mark>, op: Op, c: Children)
    requires op.OnEntries() && MergeEntries(marks, op).Some? && Agree(marks, c)
    ensures Agree(MergeEntries(marks, op).value, Kids(ApplyOp(op, Present(c))))
  {
  }

  lemma MergeAgrees(tx: Tx, op: Op, dir: Dir)
    requires op.Structural() && Merged(tx, op).outcome.Effective() && Legal(op, dir) && Agree(tx.dentries, Kids(dir))
    ensures Agree(Merged(tx, op).tx.dentries, Kids(ApplyOp(op, dir))) && !Blank(Merged(tx, op).tx)
  {
    if op.OnEntries() {
      MergedEntries(tx, op);
      EntriesAgree(tx.dentries, op, dir.children);
    }
  }

  /** A merge that fills the latest transaction leaves no other one with marks that count. */
  lemma FilledMarks(
      txs: seq<Tx>, table: map<Ino, nat>, swapped: map<Ino, nat>, commit: CommitPc, d: Ino, id: nat, x: Tx,
      kids: Children)
    requires TableOk(txs, table) && SwapOk(txs, table, swapped, commit) && id < |txs|
    requires Latest(txs, table, swapped, d, id) && !Blank(x) && Agree(x.dentries, kids)
    ensures MarksAt(txs[id := x], table, swapped, d, kids)
  {
    var txs' := txs[id := x];
    forall j | 0 <= j < |txs'| && Latest(txs', table, swapped, d, j) ensures Agree(txs'[j].dentries, kids) {
      if j != id && Holds(table, d, j) { assert Blank(txs[j]); }
    }
  }

  /** Where the latest transactions are the same, or new and blank, their marks still agree. */
  lemma SameMarks(
      txs: seq<Tx>, table: map<Ino, nat>, swapped: map<Ino, nat>,
      txs': seq<Tx>, table': map<Ino, nat>, swapped': map<Ino, nat>, d: Ino, kids: Children)
    requires MarksAt(txs, table, swapped, d, kids)
    requires forall id :: 0 <= id < |txs'| && Latest(txs', table', swapped', d, id) ==>
      || txs'[id].dentries == map[]
      || (id < |txs| && Latest(txs, table, swapped, d, id) && txs'[id].dentries == txs[id].dentries)
    ensures MarksAt(txs', table', swapped', d, kids)
  {
  }

  /** A merge that leaves the entries alone or concerns another directory. */
  lemma AsideMarks(
      txs: seq<Tx>, table: map<Ino, nat>, swapped: map<Ino, nat>, commit: CommitPc, d: Ino, id: nat, x: Tx,
      kids: Children)
    requires TableOk(txs, table) && SwapOk(txs, table, swapped, commit) && MarksAt(txs, table, swapped, d, kids)
    requires id < |txs| && (txs[id].dir == d ==> x.status == txs[id].status && x.dentries == txs[id].dentries)
    ensures MarksAt(txs[id := x], table, swapped, d, kids)
  {
    SameMarks(txs, table, swapped, txs[id := x], table, swapped, d, kids);
  }

  lemma FreshMarks(
      txs: seq<Tx>, table: map<Ino, nat>, swapped: map<Ino, nat>, commit: CommitPc, c: Ino, d: Ino,
      kids: Children)
    requires TableOk(txs, table) && SwapOk(txs, table, swapped, commit)
    requires MarksAt(txs, table, swapped, d, kids) && c !in table
    ensures MarksAt(txs + [NewTx(c)], table[c := |txs|], swapped, d, kids)
  {
    SameMarks(txs, table, swapped, txs + [NewTx(c)], table[c := |txs|], swapped, d, kids);
  }

  lemma SwappedMarks(txs: seq<Tx>, table: map<Ino, nat>, d: Ino, kids: Children)
    requires MarksAt(txs, table, map[], d, kids)
    ensures MarksAt(txs, map[], table, d, kids)
  {
    SameMarks(txs, table, map[], txs, map[], table, d, kids);
  }

  lemma IssuedMarks(txs: seq<Tx>, table: map<Ino, nat>, swapped: map<Ino, nat>, c: Ino, d: Ino, kids: Children)
    requires MarksAt(txs, table, swapped, d, kids)
    ensures MarksAt(txs, table, swapped - {c}, d, kids)
  {
    SameMarks(txs, table, swapped, txs, table, swapped - {c}, d, kids);
  }

  // ---- Every step keeps it ----

  /** The history of `d` is the same, so only the transactions matter. */
  lemma StillOk(s: State, s': State, d: Ino)
    requires MarksOk(s, d) && s'.base == s.base && History(s', d) == History(s, d)
    requires forall kids ::
      MarksAt(s.txs, s.table, s.swapped, d, kids) ==> MarksAt(s'.txs, s'.table, s'.swapped, d, kids)
    ensures MarksOk(s', d)
  {
    assert Based(s', d) == Based(s, d);
  }

  lemma LandedMarks(s: State, s': State, t: nat, m: Merge, d: Ino)
    requires Shape(s) && MarksOk(s, d) && Lands(s, t, m) && m == Merged(s.txs[s.threads[t].tx], s.threads[t].call.op)
    requires Replaces(s, s', s.threads[t].tx, m.tx)
    requires var c := s.threads[t].call;
      History(s', d) == if c.dir == d && c.op.Structural() then History(s, d) + [c.op] else History(s, d)
    ensures MarksOk(s', d)
  {
    var id, op := s.threads[t].tx, s.threads[t].call.op;
    if s.threads[t].call.dir == d && op.Structural() {
      assert StructuralOn(s.threads, t, d);
      MergedMarks(s, s', id, op, d);
    } else {
      forall kids | MarksAt(s.txs, s.table, s.swapped, d, kids) ensures MarksAt(s'.txs, s'.table, s'.swapped, d, kids) {
        AsideMarks(s.txs, s.table, s.swapped, s.commit, d, id, m.tx, kids);
      }
      StillOk(s, s', d);
    }
  }

  lemma MergedMarks(s: State, s': State, id: nat, op: Op, d: Ino)
    requires TableOk(s.txs, s.table) && SwapOk(s.txs, s.table, s.swapped, s.commit) && MarksOk(s, d)
    requires id < |s.txs| && Latest(s.txs, s.table, s.swapped, d, id) && op.Structural()
    requires Merged(s.txs[id], op).outcome.Effective() && Replaces(s, s', id, Merged(s.txs[id], op).tx)
    requires History(s', d) == History(s, d) + [op]
    ensures MarksOk(s', d)
  {
    var b, h := Based(s, d), History(s, d);
    assert Based(s', d) == b && (h + [op])[..|h|] == h;
    if LegalRun(b, h + [op]) {
      MergeAgrees(s.txs[id], op, Fold(b, h));
      FilledMarks(
        s.txs, s.table, s.swapped, s.commit, d, id, Merged(s.txs[id], op).tx, Kids(Fold(b, h + [op])));
    }
  }

  lemma ApplyMarksOk(s: State, t: nat, d: Ino)
    requires Shape(s) && MarksOk(s, d) && CanApply(s, t)
    ensures MarksOk(DoApply(s, t), d)
  {
    var m := Merged(s.txs[s.threads[t].tx], s.threads[t].call.op);
    if m.outcome.Effective() {
      MergeTouches(s.txs[s.threads[t].tx], s.threads[t].call.op);
      LandedParts(s, Landed(s, t, m), t, m, d);
      LandedMarks(s, Landed(s, t, m), t, m, d);
    }
  }

  lemma InsertMarksOk(s: State, t: nat, d: Ino)
    requires Shape(s) && MarksOk(s, d) && CanInsert(s, t)
    ensures MarksOk(DoInsert(s, t), d)
  {
    var s', c := DoInsert(s, t), s.threads[t].call.dir;
    if c !in s.table {
      forall kids | MarksAt(s.txs, s.table, s.swapped, d, kids) ensures MarksAt(s'.txs, s'.table, s'.swapped, d, kids) {
        FreshMarks(s.txs, s.table, s.swapped, s.commit, c, d, kids);
      }
    }
    StillOk(s, s', d);
  }

  lemma FreezeMarksOk(s: State, c: Ino, d: Ino)
    requires Shape(s) && MarksOk(s, d) && CanFreeze(s, c)
    ensures MarksOk(DoFreeze(s, c), d)
  {
    var s', id := DoFreeze(s, c), s.swapped[c];
    forall kids | MarksAt(s.txs, s.table, s.swapped, d, kids) ensures MarksAt(s'.txs, s'.table, s'.swapped, d, kids) {
      AsideMarks(s.txs, s.table, s.swapped, s.commit, d, id, s.txs[id].(committed := true), kids);
    }
    StillOk(s, s', d);
  }

  lemma SwapMarksOk(s: State, d: Ino)
    requires MarksOk(s, d) && CanReplaceMap(s)
    ensures MarksOk(DoReplaceMap(s), d)
  {
    forall kids | MarksAt(s.txs, s.table, s.swapped, d, kids) ensures MarksAt(s.txs, map[], s.table, d, kids) {
      SwappedMarks(s.txs, s.table, d, kids);
    }
    StillOk(s, DoReplaceMap(s), d);
  }

  lemma IssueMarksOk(s: State, d: Ino)
    requires MarksOk(s, d) && CanIssue(s)
    ensures MarksOk(DoIssue(s), d)
  {
    var c := s.commit.dir;
    forall kids | MarksAt(s.txs, s.table, s.swapped, d, kids)
      ensures MarksAt(s.txs, s.table, s.swapped - {c}, d, kids)
    {
      IssuedMarks(s.txs, s.table, s.swapped, c, d, kids);
    }
    StillOk(s, DoIssue(s), d);
  }

  lemma MarksKeep(s: State, e: Event, d: Ino)
    requires Shape(s) && MarksOk(s, d) && Enabled(s, e)
    ensures MarksOk(Do(s, e), d)
  {
    match e {
      case Insert(t) => InsertMarksOk(s, t, d);
      case Apply(t) => ApplyMarksOk(s, t, d);
      case Freeze(c) => FreezeMarksOk(s, c, d);
      case ReplaceMap => SwapMarksOk(s, d);
      case Issue => IssueMarksOk(s, d);
      case _ =>
        MovesOnly(s, e);
        StillOk(s, Do(s, e), d);
    }
  }

  // ---- No entry error ----

  /** The file system creates absent names only, and removes and moves present ones only. */
  predicate Sensible(op: Op, now: Children) {
    match op
    case MkDir(_, n, _) => n !in now
    case MkReg(_, n, _) => n !in now
    case RmDir(_, n, _) => n in now
    case RmReg(_, n, _) => n in now
    case MvDir(_, src, _, _, _) => src in now
    case MvReg(_, src, _, _, _) => src in now
    case _ => false
  }

  lemma SensibleAccepted(tx: Tx, op: Op, now: Children)
    requires Sensible(op, now) && Agree(tx.dentries, now)
    ensures Merged(tx, op).outcome != EntryError
  {
  }

  lemma SensibleMerges(s: State, t: nat)
    requires Shape(s) && CanApply(s, t)
    requires var c := s.threads[t].call;
      && MarksOk(s, c.dir) && LegalRun(Based(s, c.dir), History(s, c.dir))
      && Sensible(c.op, Kids(Fold(Based(s, c.dir), History(s, c.dir))))
    ensures Merged(s.txs[s.threads[t].tx], s.threads[t].call.op).outcome != EntryError
  {
    var c, id := s.threads[t].call, s.threads[t].tx;
    if !s.txs[id].committed {
      assert StructuralOn(s.threads, t, c.dir);
      assert Latest(s.txs, s.table, s.swapped, c.dir, id);
      SensibleAccepted(s.txs[id], c.op, Kids(Fold(Based(s, c.dir), History(s, c.dir))));
    }
  }
}
