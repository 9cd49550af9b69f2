/** What the journal pipeline keeps, stated over the parts of its state, and how replays compare. */
module PipelineProof {
  import opened Types
  import opened Transactions
  import opened Coalescing
  import opened Pipeline

  ghost predicate Holds(m: map<Ino, nat>, d: Ino, t: nat) {
    d in m && m[d] == t
  }

  /** The table holds open transactions, each of its own directory. */
  ghost predicate TableOk(txs: seq<Tx>, table: map<Ino, nat>) {
    forall d :: d in table ==> table[d] < |txs| && txs[table[d]].dir == d && !txs[table[d]].committed
  }

  ghost predicate Committing(commit: CommitPc, d: Ino) {
    commit != Between && commit.dir == d
  }

  /** Of the swapped-out transactions, only the one being committed has its flag set. */
  ghost predicate SwapOk(txs: seq<Tx>, table: map<Ino, nat>, swapped: map<Ino, nat>, commit: CommitPc) {
    && (commit != Between ==> commit.dir in swapped)
    && forall d :: d in swapped ==>
      && swapped[d] < |txs| && txs[swapped[d]].dir == d
      && (txs[swapped[d]].committed <==> Committing(commit, d))
      && (d in table ==> table[d] != swapped[d])
  }

  /** No open transaction is ever lost: it is in the table or in the swapped-out map. */
  ghost predicate Located(txs: seq<Tx>, table: map<Ino, nat>, swapped: map<Ino, nat>) {
    forall t :: 0 <= t < |txs| && !txs[t].committed ==> Holds(table, txs[t].dir, t) || Holds(swapped, txs[t].dir, t)
  }

  /** A transaction that left the table for good: committed, and on the queue of its directory. */
  ghost predicate Routed(txs: seq<Tx>, i: nat, t: nat) {
    t < |txs| && txs[t].committed && Route(txs[t].dir) == i
  }

  ghost predicate QueuesOk(txs: seq<Tx>, queues: seq<seq<nat>>) {
    && |queues| == NUM_CP_THREAD
    && forall i, k :: 0 <= i < NUM_CP_THREAD && 0 <= k < |queues[i]| ==> Routed(txs, i, queues[i][k])
  }

  /** What a checkpoint thread has read is still what the store holds. */
  ghost predicate Fresh(txs: seq<Tx>, store: map<Ino, Children>, w: Worker) {
    w.Loaded? && w.tx < |txs| ==>
      var tx := txs[w.tx];
      if tx.status == Unchanged then tx.dir in store && store[tx.dir] == w.list else w.list == map[]
  }

  ghost predicate WorkersOk(txs: seq<Tx>, store: map<Ino, Children>, workers: seq<Worker>) {
    && |workers| == NUM_CP_THREAD
    && forall i :: 0 <= i < NUM_CP_THREAD ==>
      (!workers[i].Waiting? ==> Routed(txs, i, workers[i].tx)) && Fresh(txs, store, workers[i])
  }

  ghost predicate ThreadsOk(txs: seq<Tx>, threads: map<nat, Pc>) {
    forall t :: t in threads && threads[t].Holding? ==>
      threads[t].tx < |txs| && txs[threads[t].tx].dir == threads[t].call.dir
  }

  ghost predicate StructuralOn(threads: map<nat, Pc>, t: nat, d: Ino) {
    t in threads && threads[t].call.op.Structural() && threads[t].call.dir == d
  }

  /** At most one structural call per directory is under way. */
  ghost predicate Serialised(threads: map<nat, Pc>) {
    forall t, u, d :: StructuralOn(threads, t, d) && StructuralOn(threads, u, d) ==> t == u
  }

  /** Nothing structural of `d` comes after transaction `id`. */
  ghost predicate Latest(txs: seq<Tx>, table: map<Ino, nat>, swapped: map<Ino, nat>, d: Ino, id: nat) {
    || Holds(table, d, id)
    || (Holds(swapped, d, id) && (d in table && table[d] < |txs| ==> Blank(txs[table[d]])))
  }

  ghost predicate HoldersOk(txs: seq<Tx>, table: map<Ino, nat>, swapped: map<Ino, nat>, threads: map<nat, Pc>) {
    forall t, d :: StructuralOn(threads, t, d) && threads[t].Holding?
      ==> threads[t].tx < |txs| && !txs[threads[t].tx].committed ==> Latest(txs, table, swapped, d, threads[t].tx)
  }

  ghost predicate Shape(s: State) {
    && TableOk(s.txs, s.table) && SwapOk(s.txs, s.table, s.swapped, s.commit) && Located(s.txs, s.table, s.swapped)
    && QueuesOk(s.txs, s.queues) && WorkersOk(s.txs, s.store, s.workers)
    && ThreadsOk(s.txs, s.threads) && Serialised(s.threads) && HoldersOk(s.txs, s.table, s.swapped, s.threads)
  }

  /** The store once every transaction of `d` with its committed flag set is carried out. */
  ghost function Fixed(s: State, d: Ino): Dir {
    if Committing(s.commit, d) then Through(s.txs, s.swapped, d, Settled(s, d)) else Settled(s, d)
  }

  ghost predicate TidyAt(txs: seq<Tx>, m: map<Ino, nat>, d: Ino) {
    d in m && m[d] < |txs| ==> Tidy(txs[m[d]])
  }

  /** Store plus pending work equals the history, unless a stray commit has doomed the directory. */
  ghost predicate Claim(b: Dir, history: seq<Op>, stray: bool, fixed: Dir, replayed: Dir, tidy: bool) {
    LegalRun(b, history) ==> if stray then fixed == Corrupt else replayed == Fold(b, history) && tidy
  }

  ghost predicate DirOk(s: State, d: Ino) {
    Claim(Based(s, d), History(s, d), d in s.seen.stray, Fixed(s, d), Replayed(s, d),
          TidyAt(s.txs, s.swapped, d) && TidyAt(s.txs, s.table, d))
  }

  ghost predicate Inv(s: State) {
    Shape(s) && forall d :: DirOk(s, d)
  }

  /** The steps that leave transactions, tables and histories alone. */
  predicate Moves(e: Event) {
    e.Begin? || e.Find? || e.Append? || e.Dispatch? || e.Load? || e.Write? || e.Clear?
  }

  lemma MovesOnly(s: State, e: Event)
    requires Moves(e) && Enabled(s, e)
    ensures Do(s, e).txs == s.txs && Do(s, e).table == s.table && Do(s, e).swapped == s.swapped
    ensures Do(s, e).seen.history == s.seen.history && Do(s, e).seen.stray == s.seen.stray
  {
  }

  /** The commit thread and the checkpoint threads leave the operation threads alone. */
  lemma NoThread(s: State, e: Event)
    requires Enabled(s, e) && !(e.Begin? || e.Find? || e.Insert? || e.Apply?)
    ensures Do(s, e).threads == s.threads && Do(s, e).seen.history == s.seen.history
  {
  }

  // ---- Replaying lists of transactions ----

  lemma {:induction false} ReplaySame(a: seq<Tx>, b: seq<Tx>, d: Dir, ids: seq<nat>)
    requires forall k :: 0 <= k < |ids| ==> ids[k] < |a| && ids[k] < |b| && a[ids[k]] == b[ids[k]]
    ensures Replay(a, d, ids) == Replay(b, d, ids)
  {
    if ids != [] {
      ReplaySame(a, b, d, ids[..|ids| - 1]);
    }
  }

  lemma {:induction false} ReplayHead(txs: seq<Tx>, d: Dir, t: nat, rest: seq<nat>)
    requires t < |txs|
    ensures Replay(txs, d, [t] + rest) == Replay(txs, Effect(txs[t], d), rest)
  {
    if rest == [] {
      assert [t] + rest == [t] && [t][..0] == [];
    } else {
      ReplayHead(txs, d, t, rest[..|rest| - 1]);
      assert ([t] + rest)[..|[t] + rest| - 1] == [t] + rest[..|rest| - 1];
    }
  }

  lemma {:induction false} OfDirMembers(txs: seq<Tx>, q: seq<nat>, d: Ino, k: nat)
    requires k < |OfDir(txs, q, d)|
    ensures OfDir(txs, q, d)[k] in q
    ensures OfDir(txs, q, d)[k] < |txs| && txs[OfDir(txs, q, d)[k]].dir == d
  {
    var n := |q| - 1;
    if k < |OfDir(txs, q[..n], d)| {
      OfDirMembers(txs, q[..n], d, k);
    }
  }

  lemma {:induction false} OfDirSame(a: seq<Tx>, b: seq<Tx>, q: seq<nat>, d: Ino)
    requires forall k :: 0 <= k < |q| ==> q[k] < |a| && q[k] < |b| && a[q[k]].dir == b[q[k]].dir
    ensures OfDir(a, q, d) == OfDir(b, q, d)
  {
    if q != [] {
      OfDirSame(a, b, q[..|q| - 1], d);
    }
  }

  lemma {:induction false} OfDirHead(txs: seq<Tx>, t: nat, rest: seq<nat>, d: Ino)
    ensures OfDir(txs, [t] + rest, d) == (if t < |txs| && txs[t].dir == d then [t] else []) + OfDir(txs, rest, d)
  {
    if rest == [] {
      assert [t] + rest == [t] && [t][..0] == [];
    } else {
      OfDirHead(txs, t, rest[..|rest| - 1], d);
      assert ([t] + rest)[..|[t] + rest| - 1] == [t] + rest[..|rest| - 1];
    }
  }

  /** Every issued transaction of `d` is a committed one of `d`. */
  lemma IssuedMembers(
      txs: seq<Tx>, queues: seq<seq<nat>>, store: map<Ino, Children>, workers: seq<Worker>, d: Ino, k: nat)
    requires QueuesOk(txs, queues) && WorkersOk(txs, store, workers) && k < |Issued(txs, queues, workers, d)|
    ensures var t := Issued(txs, queues, workers, d)[k]; t < |txs| && txs[t].dir == d && txs[t].committed
  {
    var i := Route(d);
    var h := |InHand(txs, workers[i], d)|;
    if k >= h {
      OfDirMembers(txs, queues[i], d, k - h);
      var j :| 0 <= j < |queues[i]| && queues[i][j] == Issued(txs, queues, workers, d)[k];
      assert Routed(txs, i, queues[i][j]);
    }
  }

  /** Committed transactions are the same in both lists, and no transaction changes its directory. */
  ghost predicate KeepsCommitted(txs: seq<Tx>, txs': seq<Tx>) {
    && |txs| <= |txs'|
    && (forall t :: 0 <= t < |txs| ==> txs'[t].dir == txs[t].dir)
    && (forall t :: 0 <= t < |txs| && txs[t].committed ==> txs'[t] == txs[t])
  }

  /** Only committed transactions are issued, so steps on open ones leave the issued work as it was. */
  lemma SettledSame(s: State, s': State, d: Ino)
    requires QueuesOk(s.txs, s.queues) && WorkersOk(s.txs, s.store, s.workers) && KeepsCommitted(s.txs, s'.txs)
    requires s'.queues == s.queues && s'.workers == s.workers && Stored(s', d) == Stored(s, d)
    ensures Settled(s', d) == Settled(s, d)
  {
    var i := Route(d);
    assert forall k :: 0 <= k < |s.queues[i]| ==> Routed(s.txs, i, s.queues[i][k]);
    OfDirSame(s.txs, s'.txs, s.queues[i], d);
    var ids := Issued(s.txs, s.queues, s.workers, d);
    assert Issued(s'.txs, s'.queues, s'.workers, d) == ids;
    forall k | 0 <= k < |ids| ensures ids[k] < |s.txs| && s'.txs[ids[k]] == s.txs[ids[k]] {
      IssuedMembers(s.txs, s.queues, s.store, s.workers, d, k);
    }
    ReplaySame(s.txs, s'.txs, Stored(s, d), ids);
  }

  /** Queues and workers do not notice a change of open transactions. */
  lemma RoutedFrame(txs: seq<Tx>, txs': seq<Tx>, queues: seq<seq<nat>>, store: map<Ino, Children>, workers: seq<Worker>)
    requires QueuesOk(txs, queues) && WorkersOk(txs, store, workers) && KeepsCommitted(txs, txs')
    ensures QueuesOk(txs', queues) && WorkersOk(txs', store, workers)
  {
    assert forall i, t :: Routed(txs, i, t) ==> Routed(txs', i, t);
  }

  ghost predicate SameMeaning(a: Tx, b: Tx) {
    a.committed == b.committed && a.status == b.status && a.dentries == b.dentries
  }

  ghost predicate SameAt(txs: seq<Tx>, txs': seq<Tx>, m: map<Ino, nat>, m': map<Ino, nat>, d: Ino) {
    && (d in m' <==> d in m)
    && (d in m ==> m[d] < |txs| && m'[d] < |txs'| && SameMeaning(txs[m[d]], txs'[m'[d]]))
  }

  lemma ThroughSame(txs: seq<Tx>, txs': seq<Tx>, m: map<Ino, nat>, m': map<Ino, nat>, d: Ino, b: Dir)
    requires SameAt(txs, txs', m, m', d)
    ensures Through(txs', m', d, b) == Through(txs, m, d, b)
    ensures TidyAt(txs', m', d) <==> TidyAt(txs, m, d)
  {
  }

  /** Nothing that is claimed of `d` changed. */
  lemma Unmoved(s: State, s': State, d: Ino)
    requires DirOk(s, d)
    requires s'.base == s.base && History(s', d) == History(s, d) && (d in s'.seen.stray <==> d in s.seen.stray)
    requires Settled(s', d) == Settled(s, d) && (Committing(s'.commit, d) <==> Committing(s.commit, d))
    requires SameAt(s.txs, s'.txs, s.swapped, s'.swapped, d) && SameAt(s.txs, s'.txs, s.table, s'.table, d)
    ensures DirOk(s', d)
  {
    var b := Settled(s, d);
    ThroughSame(s.txs, s'.txs, s.swapped, s'.swapped, d, b);
    ThroughSame(s.txs, s'.txs, s.table, s'.table, d, Through(s.txs, s.swapped, d, b));
    assert Replayed(s', d) == Replayed(s, d) && Fixed(s', d) == Fixed(s, d);
    assert Based(s', d) == Based(s, d);
  }

  /** A blank open transaction adds nothing to what is pending. */
  lemma BlankAdded(s: State, s': State, d: Ino)
    requires DirOk(s, d) && d !in s.table
    requires s'.base == s.base && History(s', d) == History(s, d) && (d in s'.seen.stray <==> d in s.seen.stray)
    requires Settled(s', d) == Settled(s, d) && (Committing(s'.commit, d) <==> Committing(s.commit, d))
    requires SameAt(s.txs, s'.txs, s.swapped, s'.swapped, d)
    requires d in s'.table && s'.table[d] < |s'.txs| && s'.txs[s'.table[d]] == NewTx(d)
    ensures DirOk(s', d)
  {
    var b := Settled(s, d);
    ThroughSame(s.txs, s'.txs, s.swapped, s'.swapped, d, b);
    assert Replayed(s', d) == Replayed(s, d) && Fixed(s', d) == Fixed(s, d);
    assert Based(s', d) == Based(s, d);
  }
}
