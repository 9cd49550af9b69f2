/** Each step of the operation threads keeps the invariant. */
module ThreadSteps {
  import opened Types
  import opened Transactions
  import opened Coalescing
  import opened Pipeline
  import opened PipelineProof

  lemma InitInv(s: State)
    requires Init(s)
    ensures Inv(s)
  {
    forall d ensures DirOk(s, d) {
      assert Issued(s.txs, s.queues, s.workers, d) == [];
    }
  }

  /** Steps that move only thread positions leave every directory as it was. */
  lemma ThreadOnly(s: State, s': State, d: Ino)
    requires Shape(s) && DirOk(s, d)
    requires s' == s.(threads := s'.threads, seen := s'.seen, commit := s'.commit)
    requires s'.seen.history == s.seen.history && s'.seen.stray == s.seen.stray
    requires Committing(s'.commit, d) <==> Committing(s.commit, d)
    ensures DirOk(s', d)
  {
    assert Settled(s', d) == Settled(s, d);
    Unmoved(s, s', d);
  }

  lemma BeginKeeps(s: State, t: nat, d: Ino, op: Op)
    requires Inv(s) && CanBegin(s, t, d, op)
    ensures Inv(DoBegin(s, t, d, op))
  {
    var s', c := DoBegin(s, t, d, op), Call(|s.seen.calls|, d, op);
    BegunThreads(s.txs, s.table, s.swapped, s.threads, t, c);
    forall x ensures DirOk(s', x) { ThreadOnly(s, s', x); }
  }

  lemma BegunThreads(
      txs: seq<Tx>, table: map<Ino, nat>, swapped: map<Ino, nat>, threads: map<nat, Pc>, t: nat, c: Call)
    requires ThreadsOk(txs, threads) && Serialised(threads) && HoldersOk(txs, table, swapped, threads) && t !in threads
    requires c.op.Structural() ==> forall u :: !StructuralOn(threads, u, c.dir)
    ensures var threads' := threads[t := Looking(c)];
      ThreadsOk(txs, threads') && Serialised(threads') && HoldersOk(txs, table, swapped, threads')
  {
    var threads' := threads[t := Looking(c)];
    assert forall u, x :: u != t ==> (StructuralOn(threads', u, x) <==> StructuralOn(threads, u, x));
  }

  /** Thread `t` leaves get_entry holding what the table holds. */
  lemma Taken(s: State, t: nat)
    requires Inv(s) && t in s.threads && s.threads[t].call.dir in s.table
    ensures var c := s.threads[t].call; Inv(s.(threads := s.threads[t := Holding(c, s.table[c.dir])]))
  {
    var c := s.threads[t].call;
    var s' := s.(threads := s.threads[t := Holding(c, s.table[c.dir])]);
    assert forall u, d :: StructuralOn(s'.threads, u, d) <==> StructuralOn(s.threads, u, d);
    forall d ensures DirOk(s', d) { ThreadOnly(s, s', d); }
  }

  lemma FindKeeps(s: State, t: nat)
    requires Inv(s) && CanFind(s, t)
    ensures Inv(DoFind(s, t))
  {
    var c := s.threads[t].call;
    if c.dir in s.table {
      Taken(s, t);
    } else {
      var s' := DoFind(s, t);
      assert forall u, d :: StructuralOn(s'.threads, u, d) <==> StructuralOn(s.threads, u, d);
      forall d ensures DirOk(s', d) { ThreadOnly(s, s', d); }
    }
  }

  lemma FreshTables(txs: seq<Tx>, table: map<Ino, nat>, swapped: map<Ino, nat>, commit: CommitPc, d: Ino)
    requires TableOk(txs, table) && SwapOk(txs, table, swapped, commit) && Located(txs, table, swapped) && d !in table
    ensures var txs', table' := txs + [NewTx(d)], table[d := |txs|];
      TableOk(txs', table') && SwapOk(txs', table', swapped, commit) && Located(txs', table', swapped)
      && KeepsCommitted(txs, txs')
  {
  }

  lemma FreshHolders(s: State, s': State, t: nat)
    requires Shape(s) && CanInsert(s, t) && s.threads[t].call.dir !in s.table && s' == DoInsert(s, t)
    ensures ThreadsOk(s'.txs, s'.threads) && Serialised(s'.threads)
    ensures HoldersOk(s'.txs, s'.table, s'.swapped, s'.threads)
  {
    assert forall u, d :: StructuralOn(s'.threads, u, d) <==> StructuralOn(s.threads, u, d);
    forall u, d | StructuralOn(s'.threads, u, d) && s'.threads[u].Holding? && !s'.txs[s'.threads[u].tx].committed
      ensures Latest(s'.txs, s'.table, s'.swapped, d, s'.threads[u].tx)
    {
      if u != t { assert Latest(s.txs, s.table, s.swapped, d, s.threads[u].tx); }
    }
  }

  lemma InsertKeeps(s: State, t: nat)
    requires Inv(s) && CanInsert(s, t)
    ensures Inv(DoInsert(s, t))
  {
    var s', c := DoInsert(s, t), s.threads[t].call;
    if c.dir in s.table {
      Taken(s, t);
    } else {
      FreshTables(s.txs, s.table, s.swapped, s.commit, c.dir);
      FreshHolders(s, s', t);
      RoutedFrame(s.txs, s'.txs, s.queues, s.store, s.workers);
      forall d ensures DirOk(s', d) { FreshDir(s, s', t, d); }
    }
  }

  lemma FreshDir(s: State, s': State, t: nat, d: Ino)
    requires Shape(s) && DirOk(s, d) && CanInsert(s, t) && s.threads[t].call.dir !in s.table && s' == DoInsert(s, t)
    ensures DirOk(s', d)
  {
    FreshTables(s.txs, s.table, s.swapped, s.commit, s.threads[t].call.dir);
    SettledSame(s, s', d);
    if s.threads[t].call.dir != d {
      Unmoved(s, s', d);
    } else {
      BlankAdded(s, s', d);
    }
  }

  /** A merge touches one open transaction, and neither its directory nor its flag. */
  ghost predicate Touches(txs: seq<Tx>, id: nat, x: Tx) {
    id < |txs| && !txs[id].committed && !x.committed && x.dir == txs[id].dir
  }

  lemma TouchedTables(txs: seq<Tx>, table: map<Ino, nat>, swapped: map<Ino, nat>, commit: CommitPc, id: nat, x: Tx)
    requires TableOk(txs, table) && SwapOk(txs, table, swapped, commit) && Located(txs, table, swapped)
    requires Touches(txs, id, x)
    ensures var txs' := txs[id := x];
      TableOk(txs', table) && SwapOk(txs', table, swapped, commit) && Located(txs', table, swapped)
      && KeepsCommitted(txs, txs')
  {
  }

  /**
    Only chself and chreg run beside a structural call on the same directory, and they keep blank transactions
    blank.
   */
  lemma TouchedHolders(s: State, t: nat, x: Tx)
    requires Shape(s) && t in s.threads && s.threads[t].Holding? && Touches(s.txs, s.threads[t].tx, x)
    requires !s.threads[t].call.op.Structural() ==> SameMeaning(s.txs[s.threads[t].tx], x)
    ensures var txs', threads' := s.txs[s.threads[t].tx := x], s.threads - {t};
      ThreadsOk(txs', threads') && Serialised(threads') && HoldersOk(txs', s.table, s.swapped, threads')
  {
    var txs', threads' := s.txs[s.threads[t].tx := x], s.threads - {t};
    assert forall u, d :: StructuralOn(threads', u, d) <==> u != t && StructuralOn(s.threads, u, d);
    forall u, d | StructuralOn(threads', u, d) && threads'[u].Holding? && !txs'[threads'[u].tx].committed
      ensures Latest(txs', s.table, s.swapped, d, threads'[u].tx)
    {
      assert Latest(s.txs, s.table, s.swapped, d, s.threads[u].tx);
      if StructuralOn(s.threads, t, d) { assert false; }
    }
  }

  /** A thread that was refused looks again. */
  lemma LooksAgain(s: State, t: nat)
    requires Inv(s) && t in s.threads
    ensures Inv(s.(threads := s.threads[t := Looking(s.threads[t].call)]))
  {
    var s' := s.(threads := s.threads[t := Looking(s.threads[t].call)]);
    assert forall u, d :: StructuralOn(s'.threads, u, d) <==> StructuralOn(s.threads, u, d);
    forall d ensures DirOk(s', d) { ThreadOnly(s, s', d); }
  }

  /** A thread ends with an exception. */
  lemma GaveUp(s: State, t: nat, rejected: set<nat>)
    requires Inv(s) && t in s.threads
    ensures Inv(s.(threads := s.threads - {t}, seen := s.seen.(rejected := rejected)))
  {
    var s' := s.(threads := s.threads - {t}, seen := s.seen.(rejected := rejected));
    assert forall u, d :: StructuralOn(s'.threads, u, d) ==> StructuralOn(s.threads, u, d);
    forall d ensures DirOk(s', d) { ThreadOnly(s, s', d); }
  }

  lemma ApplyKeeps(s: State, t: nat)
    requires Inv(s) && CanApply(s, t)
    ensures Inv(DoApply(s, t))
  {
    var m := Merged(s.txs[s.threads[t].tx], s.threads[t].call.op);
    if m.outcome.Effective() {
      MergeTouches(s.txs[s.threads[t].tx], s.threads[t].call.op);
      LandedShape(s, t, m);
      var s' := Landed(s, t, m);
      forall d ensures DirOk(s', d) {
        LandedParts(s, s', t, m, d);
        LandedDir(s, s', t, m, d);
      }
    } else if m.outcome.Refused? {
      LooksAgain(s, t);
    } else {
      GaveUp(s, t, s.seen.rejected + {s.threads[t].call.id});
    }
  }

  /** Transaction `id` becomes `x`; table, commit thread, queues, workers and store stay. */
  ghost predicate Replaces(s: State, s': State, id: nat, x: Tx)
    requires id < |s.txs|
  {
    && s'.base == s.base && s'.store == s.store && s'.txs == s.txs[id := x]
    && s'.table == s.table && s'.swapped == s.swapped
    && s'.commit == s.commit && s'.queues == s.queues && s'.workers == s.workers && s'.seen.stray == s.seen.stray
  }

  lemma LandedParts(s: State, s': State, t: nat, m: Merge, d: Ino)
    requires CanApply(s, t) && m.outcome.Effective() && s' == Landed(s, t, m)
    ensures Replaces(s, s', s.threads[t].tx, m.tx)
    ensures var c := s.threads[t].call;
      History(s', d) == if c.dir == d && c.op.Structural() then History(s, d) + [c.op] else History(s, d)
  {
  }

  lemma LandedDir(s: State, s': State, t: nat, m: Merge, d: Ino)
    requires Shape(s) && DirOk(s, d) && Lands(s, t, m) && m == Merged(s.txs[s.threads[t].tx], s.threads[t].call.op)
    requires Replaces(s, s', s.threads[t].tx, m.tx)
    requires var c := s.threads[t].call;
      History(s', d) == if c.dir == d && c.op.Structural() then History(s, d) + [c.op] else History(s, d)
    ensures DirOk(s', d)
  {
    var id, op := s.threads[t].tx, s.threads[t].call.op;
    if s.threads[t].call.dir == d && op.Structural() {
      assert StructuralOn(s.threads, t, d);
      LandedHere(s, s', id, op, d);
    } else {
      LandedAside(s, s', id, m.tx, d);
    }
  }

  lemma MergeTouches(tx: Tx, op: Op)
    requires Merged(tx, op).outcome.Effective()
    ensures !tx.committed && !Merged(tx, op).tx.committed && Merged(tx, op).tx.dir == tx.dir
    ensures !op.Structural() ==> SameMeaning(tx, Merged(tx, op).tx)
  {
  }

  ghost predicate Lands(s: State, t: nat, m: Merge) {
    && CanApply(s, t) && m.outcome.Effective() && Touches(s.txs, s.threads[t].tx, m.tx)
    && (!s.threads[t].call.op.Structural() ==> SameMeaning(s.txs[s.threads[t].tx], m.tx))
  }

  lemma LandedShape(s: State, t: nat, m: Merge)
    requires Shape(s) && Lands(s, t, m)
    ensures Shape(Landed(s, t, m))
  {
    var id, s' := s.threads[t].tx, Landed(s, t, m);
    LandedParts(s, s', t, m, s.txs[id].dir);
    assert s'.threads == s.threads - {t};
    TouchedTables(s.txs, s.table, s.swapped, s.commit, id, m.tx);
    TouchedHolders(s, t, m.tx);
    RoutedFrame(s.txs, s.txs[id := m.tx], s.queues, s.store, s.workers);
  }

  /** A transaction that changes without meaning anything else for `d`. */
  lemma SameAtChanged(txs: seq<Tx>, m: map<Ino, nat>, d: Ino, id: nat, x: Tx)
    requires id < |txs| && (txs[id].dir == d ==> SameMeaning(txs[id], x))
    requires d in m ==> m[d] < |txs| && txs[m[d]].dir == d
    ensures SameAt(txs, txs[id := x], m, m, d)
  {
  }

  /** A merge that leaves the entries alone or concerns another directory. */
  lemma LandedAside(s: State, s': State, id: nat, x: Tx, d: Ino)
    requires TableOk(s.txs, s.table) && SwapOk(s.txs, s.table, s.swapped, s.commit)
    requires QueuesOk(s.txs, s.queues) && WorkersOk(s.txs, s.store, s.workers)
    requires DirOk(s, d) && Touches(s.txs, id, x) && (s.txs[id].dir == d ==> SameMeaning(s.txs[id], x))
    requires Replaces(s, s', id, x) && History(s', d) == History(s, d)
    ensures DirOk(s', d)
  {
    SettledSame(s, s', d);
    SameAtChanged(s.txs, s.table, d, id, x);
    SameAtChanged(s.txs, s.swapped, d, id, x);
    Unmoved(s, s', d);
  }

  /** A structural merge extends the history and the pending work by the same operation. */
  lemma LandedHere(s: State, s': State, id: nat, op: Op, d: Ino)
    requires Shape(s) && DirOk(s, d) && id < |s.txs| && Latest(s.txs, s.table, s.swapped, d, id)
    requires Merged(s.txs[id], op).outcome.Effective() && Touches(s.txs, id, Merged(s.txs[id], op).tx)
    requires Replaces(s, s', id, Merged(s.txs[id], op).tx) && History(s', d) == History(s, d) + [op]
    ensures DirOk(s', d)
  {
    TouchedTables(s.txs, s.table, s.swapped, s.commit, id, Merged(s.txs[id], op).tx);
    SettledSame(s, s', d);
    var h, h' := History(s, d), History(s', d);
    assert h'[..|h'| - 1] == h;
    assert Based(s', d) == Based(s, d);
    if LegalRun(Based(s, d), h') {
      if d in s.seen.stray {
        assert Fixed(s', d) == Fixed(s, d);
      } else {
        LegalNotCorrupt(Based(s, d), h);
        LatestMerge(s.txs, s.table, s.swapped, s.commit, d, id, op, Settled(s, d));
      }
    }
  }

  /** Merging into the latest transaction of a directory is one more operation on its pending state. */
  lemma LatestMerge(
      txs: seq<Tx>, table: map<Ino, nat>, swapped: map<Ino, nat>, commit: CommitPc, d: Ino, id: nat, op: Op,
      b: Dir)
    requires TableOk(txs, table) && SwapOk(txs, table, swapped, commit) && Latest(txs, table, swapped, d, id)
    requires id < |txs| && Merged(txs[id], op).outcome.Effective() && Tidy(txs[id])
    requires Legal(op, Through(txs, table, d, Through(txs, swapped, d, b)))
    requires Through(txs, table, d, Through(txs, swapped, d, b)) != Corrupt
    requires TidyAt(txs, swapped, d) && TidyAt(txs, table, d)
    ensures var txs' := txs[id := Merged(txs[id], op).tx];
      && Through(txs', table, d, Through(txs', swapped, d, b)) ==
         ApplyOp(op, Through(txs, table, d, Through(txs, swapped, d, b)))
      && TidyAt(txs', swapped, d) && TidyAt(txs', table, d)
  {
    if Holds(table, d, id) {
      MergeIsApply(txs[id], op, Through(txs, swapped, d, b));
    } else {
      MergeIsApply(txs[id], op, b);
    }
  }
}
