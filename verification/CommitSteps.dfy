/** Each step of the commit thread and of the checkpoint threads keeps the invariant. */
module CommitSteps {
  import opened Types
  import opened Transactions
  import opened Coalescing
  import opened Pipeline
  import opened PipelineProof
  import opened ThreadSteps

  lemma ReplaceMapKeeps(s: State)
    requires Inv(s) && CanReplaceMap(s)
    ensures Inv(DoReplaceMap(s))
  {
    var s' := s.(swapped := s.table, table := map[]);
    forall d ensures DirOk(s', d) {
      assert DirOk(s, d);
      assert Settled(s', d) == Settled(s, d);
      assert Replayed(s', d) == Replayed(s, d) && Fixed(s', d) == Fixed(s, d);
      assert Based(s', d) == Based(s, d);
    }
  }

  lemma FrozenTables(txs: seq<Tx>, table: map<Ino, nat>, swapped: map<Ino, nat>, d: Ino)
    requires TableOk(txs, table) && SwapOk(txs, table, swapped, Between) && Located(txs, table, swapped) && d in swapped
    ensures var txs' := txs[swapped[d] := txs[swapped[d]].(committed := true)];
      TableOk(txs', table) && SwapOk(txs', table, swapped, Frozen(d)) && Located(txs', table, swapped)
      && KeepsCommitted(txs, txs')
  {
  }

  lemma FrozenHolders(txs: seq<Tx>, table: map<Ino, nat>, swapped: map<Ino, nat>, threads: map<nat, Pc>, id: nat)
    requires id < |txs| && ThreadsOk(txs, threads) && HoldersOk(txs, table, swapped, threads)
    ensures var txs' := txs[id := txs[id].(committed := true)];
      ThreadsOk(txs', threads) && HoldersOk(txs', table, swapped, threads)
  {
    var txs' := txs[id := txs[id].(committed := true)];
    forall t, d | StructuralOn(threads, t, d) && threads[t].Holding? && !txs'[threads[t].tx].committed
      ensures Latest(txs', table, swapped, d, threads[t].tx)
    {
      assert Latest(txs, table, swapped, d, threads[t].tx);
    }
  }

  /**
    Setting the flag changes nothing pending, unless the transaction is still unfilled and its directory does
    not exist.
   */
  lemma FrozenEffect(tx: Tx, b: Dir)
    requires !(tx.status == Unchanged && b == Absent)
    ensures Effect(tx.(committed := true), b) == Effect(tx, b)
  {
    if Blank(tx) && b.Present? {
      assert ApplyMarks(tx.dentries, b.children) == b.children;
    }
  }

  lemma FreezeHere(s: State, d: Ino)
    requires Shape(s) && DirOk(s, d) && CanFreeze(s, d)
    ensures DirOk(DoFreeze(s, d), d)
  {
    var s', id, b := DoFreeze(s, d), s.swapped[d], Settled(s, d);
    FrozenTables(s.txs, s.table, s.swapped, d);
    SettledSame(s, s', d);
    assert Based(s', d) == Based(s, d) && History(s', d) == History(s, d);
    if d !in s'.seen.stray {
      FrozenEffect(s.txs[id], b);
      assert Replayed(s', d) == Replayed(s, d);
    } else {
      assert Fixed(s', d) == Sync(s'.txs[id], b);
    }
  }

  lemma FreezeKeeps(s: State, d: Ino)
    requires Inv(s) && CanFreeze(s, d)
    ensures Inv(DoFreeze(s, d))
  {
    var s' := DoFreeze(s, d);
    FrozenTables(s.txs, s.table, s.swapped, d);
    FrozenHolders(s.txs, s.table, s.swapped, s.threads, s.swapped[d]);
    RoutedFrame(s.txs, s'.txs, s.queues, s.store, s.workers);
    forall c ensures DirOk(s', c) {
      if c == d {
        FreezeHere(s, d);
      } else {
        FreezeElsewhere(s, s', d, c);
      }
    }
  }

  lemma FreezeElsewhere(s: State, s': State, d: Ino, c: Ino)
    requires TableOk(s.txs, s.table) && SwapOk(s.txs, s.table, s.swapped, s.commit)
    requires QueuesOk(s.txs, s.queues) && WorkersOk(s.txs, s.store, s.workers)
    requires DirOk(s, c) && CanFreeze(s, d) && c != d && s' == DoFreeze(s, d)
    ensures DirOk(s', c)
  {
    var id := s.swapped[d];
    var x := s.txs[id].(committed := true);
    assert s'.txs == s.txs[id := x] && !s.txs[id].committed;
    SettledSame(s, s', c);
    SameAtChanged(s.txs, s.table, c, id, x);
    SameAtChanged(s.txs, s.swapped, c, id, x);
    Unmoved(s, s', c);
  }

  lemma AppendKeeps(s: State)
    requires Inv(s) && CanAppend(s)
    ensures Inv(DoAppend(s))
  {
    var s' := DoAppend(s);
    assert forall d :: Committing(s'.commit, d) <==> Committing(s.commit, d);
    forall d ensures DirOk(s', d) { ThreadOnly(s, s', d); }
  }

  lemma IssuedShape(s: State)
    requires Shape(s) && CanIssue(s)
    ensures Shape(DoIssue(s))
  {
    var s', d := DoIssue(s), s.commit.dir;
    var id, i := s.swapped[d], Route(d);
    assert Committing(s.commit, d);
    assert Routed(s.txs, i, id);
    forall k, j | 0 <= k < NUM_CP_THREAD && 0 <= j < |s'.queues[k]| ensures Routed(s'.txs, k, s'.queues[k][j]) {
      if j < |s.queues[k]| { assert Routed(s.txs, k, s.queues[k][j]); }
    }
    forall t, c | StructuralOn(s.threads, t, c) && s.threads[t].Holding? && !s.txs[s.threads[t].tx].committed
      ensures Latest(s.txs, s.table, s'.swapped, c, s.threads[t].tx)
    {
      assert Latest(s.txs, s.table, s.swapped, c, s.threads[t].tx);
    }
  }

  /** Pushing a transaction of `c` at the end of its queue, seen from directory `d`. */
  lemma Pushed(txs: seq<Tx>, queues: seq<seq<nat>>, workers: seq<Worker>, c: Ino, id: nat, d: Ino, b: Dir)
    requires |queues| == |workers| == NUM_CP_THREAD && id < |txs| && txs[id].dir == c
    ensures var queues' := queues[Route(c) := queues[Route(c)] + [id]];
      Replay(txs, b, Issued(txs, queues', workers, d)) ==
      if c == d then Effect(txs[id], Replay(txs, b, Issued(txs, queues, workers, d)))
      else Replay(txs, b, Issued(txs, queues, workers, d))
  {
    var i := Route(c);
    var queues' := queues[i := queues[i] + [id]];
    assert queues'[i][..|queues'[i]| - 1] == queues[i];
    var ids, ids' := Issued(txs, queues, workers, d), Issued(txs, queues', workers, d);
    if c == d {
      assert ids' == ids + [id] && ids'[..|ids'| - 1] == ids;
    } else {
      assert ids' == ids;
    }
  }

  /** The committed transaction moves from the commit thread to the end of its queue: pending work is the same. */
  lemma IssuedDir(s: State, s': State, d: Ino)
    requires Shape(s) && DirOk(s, d) && CanIssue(s) && s' == DoIssue(s)
    ensures DirOk(s', d)
  {
    var c := s.commit.dir;
    Pushed(s.txs, s.queues, s.workers, c, s.swapped[c], d, Stored(s, d));
    if c == d {
      assert Based(s', d) == Based(s, d) && History(s', d) == History(s, d);
      assert Settled(s', d) == Through(s.txs, s.swapped, d, Settled(s, d));
      assert Replayed(s', d) == Replayed(s, d) && Fixed(s', d) == Fixed(s, d);
    } else {
      Unmoved(s, s', d);
    }
  }

  lemma IssueKeeps(s: State)
    requires Inv(s) && CanIssue(s)
    ensures Inv(DoIssue(s))
  {
    IssuedShape(s);
    forall d ensures DirOk(DoIssue(s), d) { IssuedDir(s, DoIssue(s), d); }
  }

  /** Checkpoint thread `w` moves on without writing: the same transactions stay issued in the same order. */
  lemma WorkerOnly(s: State, s': State, d: Ino)
    requires DirOk(s, d) && s' == s.(workers := s'.workers, queues := s'.queues)
    requires Shape(s) && Issued(s'.txs, s'.queues, s'.workers, d) == Issued(s.txs, s.queues, s.workers, d)
    ensures DirOk(s', d)
  {
    assert Settled(s', d) == Settled(s, d);
    Unmoved(s, s', d);
  }

  lemma DispatchKeeps(s: State, w: nat)
    requires Inv(s) && CanDispatch(s, w)
    ensures Inv(DoDispatch(s, w))
  {
    var s', q := DoDispatch(s, w), s.queues[w];
    assert Routed(s.txs, w, s.queues[w][0]);
    forall i, k | 0 <= i < NUM_CP_THREAD && 0 <= k < |s'.queues[i]| ensures Routed(s.txs, i, s'.queues[i][k]) {
      assert Routed(s.txs, i, s.queues[i][if i == w then k + 1 else k]);
    }
    forall d ensures DirOk(s', d) {
      Popped(s.txs, s.queues, s.workers, w, d);
      WorkerOnly(s, s', d);
    }
  }

  /** FIFO: the transaction taken is the oldest of its queue, so the issued order is the same. */
  lemma Popped(txs: seq<Tx>, queues: seq<seq<nat>>, workers: seq<Worker>, w: nat, d: Ino)
    requires |queues| == |workers| == NUM_CP_THREAD && w < NUM_CP_THREAD && workers[w].Waiting? && queues[w] != []
    ensures Issued(txs, queues[w := queues[w][1..]], workers[w := Took(queues[w][0])], d) ==
      Issued(txs, queues, workers, d)
  {
    if Route(d) == w { PoppedHere(txs, queues[w], d); }
  }

  lemma PoppedHere(txs: seq<Tx>, q: seq<nat>, d: Ino)
    requires q != []
    ensures InHand(txs, Took(q[0]), d) + OfDir(txs, q[1..], d) == InHand(txs, Waiting, d) + OfDir(txs, q, d)
  {
    assert q == [q[0]] + q[1..];
    OfDirHead(txs, q[0], q[1..], d);
  }

  lemma LoadKeeps(s: State, w: nat)
    requires Inv(s) && CanLoad(s, w)
    ensures Inv(DoLoad(s, w))
  {
    forall d ensures DirOk(DoLoad(s, w), d) { WorkerOnly(s, DoLoad(s, w), d); }
  }

  lemma ClearKeeps(s: State, w: nat)
    requires Inv(s) && CanClear(s, w)
    ensures Inv(DoClear(s, w))
  {
    forall d ensures DirOk(DoClear(s, w), d) { WorkerOnly(s, DoClear(s, w), d); }
  }

  /** Routing gives each directory one checkpoint thread, so nobody else writes what this one has read. */
  lemma WriteShape(s: State, w: nat)
    requires Shape(s) && CanWrite(s, w)
    ensures Shape(DoWrite(s, w))
  {
    var s' := DoWrite(s, w);
    forall i | 0 <= i < NUM_CP_THREAD
      ensures !s'.workers[i].Waiting? ==> Routed(s'.txs, i, s'.workers[i].tx)
      ensures Fresh(s'.txs, s'.store, s'.workers[i])
    {
      assert Routed(s.txs, w, s.workers[w].tx);
      if i != w { assert s'.workers[i] == s.workers[i]; }
    }
  }

  /** Writing the dentry object is exactly Sync of the oldest issued transaction. */
  lemma WriteHere(s: State, w: nat)
    requires Shape(s) && CanWrite(s, w) && DirOk(s, s.txs[s.workers[w].tx].dir)
    ensures DirOk(DoWrite(s, w), s.txs[s.workers[w].tx].dir)
  {
    var s', id := DoWrite(s, w), s.workers[w].tx;
    var d := s.txs[id].dir;
    assert Routed(s.txs, w, id);
    var rest := OfDir(s.txs, s.queues[w], d);
    assert Issued(s.txs, s.queues, s.workers, d) == [id] + rest;
    assert Issued(s'.txs, s'.queues, s'.workers, d) == rest;
    assert Fresh(s.txs, s.store, s.workers[w]);
    assert Stored(s', d) == Sync(s.txs[id], Stored(s, d));
    ReplayHead(s.txs, Stored(s, d), id, rest);
    Unmoved(s, s', d);
  }

  lemma WriteKeeps(s: State, w: nat)
    requires Inv(s) && CanWrite(s, w)
    ensures Inv(DoWrite(s, w))
  {
    var s', id := DoWrite(s, w), s.workers[w].tx;
    WriteShape(s, w);
    forall d ensures DirOk(s', d) {
      if d == s.txs[id].dir {
        WriteHere(s, w);
      } else {
        assert Issued(s'.txs, s'.queues, s'.workers, d) == Issued(s.txs, s.queues, s.workers, d);
        assert Settled(s', d) == Settled(s, d);
        Unmoved(s, s', d);
      }
    }
  }
}
