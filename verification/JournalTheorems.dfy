/** The theorems about whole runs of the journal pipeline. */
module JournalTheorems {
  import opened Types
  import opened Transactions
  import opened Coalescing
  import opened Pipeline
  import opened PipelineProof
  import opened ThreadSteps
  import opened CommitSteps
  import opened EntryMarks

  lemma ThreadStepKeeps(s: State, e: Event)
    requires Inv(s) && Enabled(s, e) && (e.Begin? || e.Find? || e.Insert? || e.Apply?)
    ensures Inv(Do(s, e))
  {
    match e {
      case Begin(t, d, op) => BeginKeeps(s, t, d, op);
      case Find(t) => FindKeeps(s, t);
      case Insert(t) => InsertKeeps(s, t);
      case Apply(t) => ApplyKeeps(s, t);
    }
  }

  lemma WorkerStepKeeps(s: State, e: Event)
    requires Inv(s) && Enabled(s, e) && (e.Dispatch? || e.Load? || e.Write? || e.Clear?)
    ensures Inv(Do(s, e))
  {
    match e {
      case Dispatch(w) => DispatchKeeps(s, w);
      case Load(w) => LoadKeeps(s, w);
      case Write(w) => WriteKeeps(s, w);
      case Clear(w) => ClearKeeps(s, w);
    }
  }

  lemma CommitStepKeeps(s: State, e: Event)
    requires Inv(s) && Enabled(s, e) && (e.ReplaceMap? || e.Freeze? || e.Append? || e.Issue?)
    ensures Inv(Do(s, e))
  {
    match e {
      case ReplaceMap => ReplaceMapKeeps(s);
      case Freeze(d) => FreezeKeeps(s, d);
      case Append => AppendKeeps(s);
      case Issue => IssueKeeps(s);
    }
  }

  lemma StepKeeps(s: State, e: Event)
    requires Inv(s) && Enabled(s, e)
    ensures Inv(Do(s, e)) && Do(s, e).base == s.base
  {
    if e.Begin? || e.Find? || e.Insert? || e.Apply? {
      ThreadStepKeeps(s, e);
    } else if e.Dispatch? || e.Load? || e.Write? || e.Clear? {
      WorkerStepKeeps(s, e);
    } else {
      CommitStepKeeps(s, e);
    }
  }

  lemma {:induction false} RunKeeps(s0: State, events: seq<Event>, s: State)
    requires Inv(s0) && Reaches(s0, events, s)
    ensures Inv(s) && s.base == s0.base
    decreases |events|
  {
    if events != [] {
      StepKeeps(s0, events[0]);
      RunKeeps(Do(s0, events[0]), events[1..], s);
    }
  }

  /**
    Store plus pending work equals the history: in every state of every run, for every directory
    whose life cycle was kept, the stored child list followed by the issued, in-commit and open
    transactions replays to the fold of all structural operations journalled so far, exactly
    when no transaction of the directory was committed before it held the mkself it was made for.
   */
  lemma StorePlusPendingIsHistory(s0: State, events: seq<Event>, s: State, d: Ino)
    requires Init(s0) && Reaches(s0, events, s) && LegalRun(Lookup(s0.base, d), History(s, d))
    ensures Replayed(s, d) == Fold(Lookup(s0.base, d), History(s, d)) <==> d !in s.seen.stray
    ensures d in s.seen.stray ==> Replayed(s, d) == Corrupt
  {
    InitInv(s0);
    RunKeeps(s0, events, s);
    assert DirOk(s, d);
    LegalNotCorrupt(Lookup(s0.base, d), History(s, d));
  }

  /** Once nothing of `d` is pending, the dentry object holds the history. */
  lemma DrainedStoreIsHistory(s0: State, events: seq<Event>, s: State, d: Ino)
    requires Init(s0) && Reaches(s0, events, s) && LegalRun(Lookup(s0.base, d), History(s, d)) && d !in s.seen.stray
    requires Issued(s.txs, s.queues, s.workers, d) == [] && d !in s.swapped && d !in s.table
    ensures Stored(s, d) == Fold(Lookup(s0.base, d), History(s, d))
  {
    StorePlusPendingIsHistory(s0, events, s, d);
  }

  // ---- Directories that exist throughout ----

  ghost predicate NeverRemoved(h: seq<Op>) {
    forall k :: 0 <= k < |h| ==> !h[k].RmSelf?
  }

  /** A directory that existed at the start and was never removed is safe from stray commits. */
  ghost predicate Lasting(s: State, d: Ino) {
    d in s.base && NeverRemoved(History(s, d)) ==>
      && d !in s.seen.stray && d in s.store
      && forall t :: 0 <= t < |s.txs| && s.txs[t].dir == d ==> s.txs[t].status != Deleted
  }

  lemma {:induction false} PresentStays(txs: seq<Tx>, b: Dir, ids: seq<nat>)
    requires b.Present? && forall k :: 0 <= k < |ids| ==> ids[k] < |txs| && txs[ids[k]].status != Deleted
    ensures Replay(txs, b, ids).Present?
  {
    if ids != [] { PresentStays(txs, b, ids[..|ids| - 1]); }
  }

  lemma LastingFreeze(s: State, d: Ino, c: Ino)
    requires Shape(s) && Lasting(s, d) && CanFreeze(s, c)
    ensures Lasting(DoFreeze(s, c), d)
  {
    var ids := Issued(s.txs, s.queues, s.workers, d);
    forall k | 0 <= k < |ids| ensures ids[k] < |s.txs| && s.txs[ids[k]].dir == d {
      IssuedMembers(s.txs, s.queues, s.store, s.workers, d, k);
    }
    if d in s.base && NeverRemoved(History(s, d)) {
      PresentStays(s.txs, Stored(s, d), ids);
    }
  }

  lemma LastingApply(s: State, d: Ino, t: nat)
    requires ThreadsOk(s.txs, s.threads) && Lasting(s, d) && CanApply(s, t)
    ensures Lasting(DoApply(s, t), d)
  {
    MergeStatus(s.txs[s.threads[t].tx], s.threads[t].call.op);
    LastingLanded(s, d, t, Merged(s.txs[s.threads[t].tx], s.threads[t].call.op));
  }

  lemma LastingLanded(s: State, d: Ino, t: nat, m: Merge)
    requires ThreadsOk(s.txs, s.threads) && Lasting(s, d) && CanApply(s, t)
    requires var tx := s.txs[s.threads[t].tx];
      && m.tx.dir == tx.dir
      && (m.tx.status == Deleted ==> tx.status == Deleted || (s.threads[t].call.op.RmSelf? && m.outcome.Effective()))
    ensures Lasting(Landed(s, t, m), d)
  {
    var c := s.threads[t].call;
    var h, h' := History(s, d), History(Landed(s, t, m), d);
    if NeverRemoved(h') && c.op.Structural() && m.outcome.Effective() && c.dir == d {
      assert h' == h + [c.op];
      assert h'[|h|] == c.op;
      assert forall k :: 0 <= k < |h| ==> h[k] == h'[k];
    }
  }

  lemma MergeStatus(tx: Tx, op: Op)
    ensures Merged(tx, op).tx.status == Deleted ==>
      tx.status == Deleted || (op.RmSelf? && Merged(tx, op).outcome.Effective())
    ensures Merged(tx, op).tx.dir == tx.dir
  {
  }

  lemma LastingWrite(s: State, d: Ino, w: nat)
    requires WorkersOk(s.txs, s.store, s.workers) && Lasting(s, d) && CanWrite(s, w)
    ensures Lasting(DoWrite(s, w), d)
  {
  }

  lemma LastingKeeps(s: State, e: Event, d: Ino)
    requires Shape(s) && Lasting(s, d) && Enabled(s, e)
    ensures Lasting(Do(s, e), d)
  {
    match e {
      case Freeze(c) => LastingFreeze(s, d, c);
      case Apply(t) => LastingApply(s, d, t);
      case Insert(t) =>
      case ReplaceMap =>
      case Issue =>
      case Write(w) => LastingWrite(s, d, w);
      case _ =>
        MovesOnly(s, e);
    }
  }

  lemma {:induction false} LastingRun(s0: State, events: seq<Event>, s: State, d: Ino)
    requires Inv(s0) && Lasting(s0, d) && Reaches(s0, events, s)
    ensures Lasting(s, d)
    decreases |events|
  {
    if events != [] {
      StepKeeps(s0, events[0]);
      LastingKeeps(s0, events[0], d);
      LastingRun(Do(s0, events[0]), events[1..], s, d);
    }
  }

  /** For a directory that existed at the start and is not removed, replaying always gives the history. */
  lemma LastingDirectoryReplays(s0: State, events: seq<Event>, s: State, d: Ino)
    requires Init(s0) && Reaches(s0, events, s) && d in s0.base
    requires LegalRun(Lookup(s0.base, d), History(s, d)) && NeverRemoved(History(s, d))
    ensures Replayed(s, d) == Fold(Lookup(s0.base, d), History(s, d)) && d !in s.seen.stray
  {
    InitInv(s0);
    assert Lasting(s0, d);
    LastingRun(s0, events, s, d);
    RunKeeps(s0, events, s);
    StorePlusPendingIsHistory(s0, events, s, d);
  }

  // ---- The merge never complains about names the file system keeps apart ----

  lemma {:induction false} MarksRun(s0: State, events: seq<Event>, s: State, d: Ino)
    requires Inv(s0) && MarksOk(s0, d) && Reaches(s0, events, s)
    ensures MarksOk(s, d)
    decreases |events|
  {
    if events != [] {
      StepKeeps(s0, events[0]);
      MarksKeep(s0, events[0], d);
      MarksRun(Do(s0, events[0]), events[1..], s, d);
    }
  }

  /**
    In every state of every run, for every directory whose life cycle was kept, a mark of the latest
    transaction is alive exactly when the history leaves its name in the directory; and unless a stray commit
    has doomed the directory, exactly when the name is in the list that store and pending work replay to.
   */
  lemma FlagsFollowHistory(s0: State, events: seq<Event>, s: State, d: Ino, id: nat)
    requires Init(s0) && Reaches(s0, events, s) && LegalRun(Lookup(s0.base, d), History(s, d))
    requires id < |s.txs| && Latest(s.txs, s.table, s.swapped, d, id)
    ensures Agree(s.txs[id].dentries, Kids(Fold(Lookup(s0.base, d), History(s, d))))
    ensures d !in s.seen.stray ==> Agree(s.txs[id].dentries, Kids(Replayed(s, d)))
  {
    InitInv(s0);
    MarksRun(s0, events, s, d);
    RunKeeps(s0, events, s);
    StorePlusPendingIsHistory(s0, events, s, d);
  }

  /**
    A create of an absent name and a removal of a present one never meet the logic_error of the `dentries`
    branch, whatever transaction they land in and whatever became of the store.
   */
  lemma NoEntryError(s0: State, events: seq<Event>, s: State, t: nat)
    requires Init(s0) && Reaches(s0, events, s) && CanApply(s, t)
    requires var c := s.threads[t].call;
      && LegalRun(Lookup(s0.base, c.dir), History(s, c.dir))
      && Sensible(c.op, Kids(Fold(Lookup(s0.base, c.dir), History(s, c.dir))))
    ensures Merged(s.txs[s.threads[t].tx], s.threads[t].call.op).outcome != EntryError
  {
    InitInv(s0);
    RunKeeps(s0, events, s);
    MarksRun(s0, events, s, s.threads[t].call.dir);
    SensibleMerges(s, t);
  }

  /** transaction::commit never finds its transaction already committed. */
  lemma CommitNeverThrows(s0: State, events: seq<Event>, s: State, d: Ino)
    requires Init(s0) && Reaches(s0, events, s) && CanFreeze(s, d)
    ensures !s.txs[s.swapped[d]].committed
  {
    InitInv(s0);
    RunKeeps(s0, events, s);
  }
}
