/** The pipeline can always be run to its end: what was journalled reaches the store. */
module Draining {
  import opened Types
  import opened Transactions
  import opened Pipeline
  import opened PipelineProof
  import opened ThreadSteps
  import opened JournalTheorems
  import opened ExactlyOnce

  /** Operation threads, history and starting point are as they were. */
  ghost predicate Quiet(s: State, s': State) {
    s'.threads == s.threads && s'.base == s.base && s'.seen.history == s.seen.history
  }

  lemma {:induction false} Joined(s: State, es: seq<Event>, s1: State, fs: seq<Event>, s2: State)
    requires Reaches(s, es, s1) && Reaches(s1, fs, s2)
    ensures Reaches(s, es + fs, s2)
    decreases |es|
  {
    if es == [] {
      assert es + fs == fs;
    } else {
      Joined(Do(s, es[0]), es[1..], s1, fs, s2);
      assert (es + fs)[1..] == es[1..] + fs;
    }
  }

  /** Event `e`, and then a run that goes on from there. */
  lemma Then(s: State, e: Event, fs: seq<Event>, s2: State) returns (events: seq<Event>)
    requires Enabled(s, e) && Reaches(Do(s, e), fs, s2)
    ensures Reaches(s, events, s2)
  {
    events := [e] + fs;
    ReachesThen(s, e, Do(s, e), fs, s2);
  }

  // ---- The commit thread ----

  /** The commit thread is not done: it can go on. */
  lemma CommitGoesOn(s: State, d: Ino)
    requires Shape(s)
    ensures s.commit.Frozen? ==> CanAppend(s)
    ensures s.commit.Logged? ==> CanIssue(s)
    ensures s.commit == Between && d in s.swapped ==> CanFreeze(s, d)
    ensures s.commit == Between && s.swapped == map[] ==> CanReplaceMap(s)
  {
  }

  lemma CommitOne(s: State) returns (e: Event, s1: State)
    requires Inv(s) && s.commit != Between
    ensures Enabled(s, e) && s1 == Do(s, e) && Inv(s1) && Quiet(s, s1) && s1.table == s.table
    ensures s.commit.Frozen? ==> s1.commit == Logged(s.commit.dir) && s1.swapped == s.swapped
    ensures s.commit.Logged? ==> s1.commit == Between && s1.swapped == s.swapped - {s.commit.dir}
  {
    CommitGoesOn(s, s.commit.dir);
    e := if s.commit.Frozen? then Append else Issue;
    s1 := Do(s, e);
    StepKeeps(s, e);
  }

  /** The transaction in hand is logged and issued. */
  lemma FinishCommit(s: State) returns (events: seq<Event>, s': State)
    requires Inv(s)
    ensures Reaches(s, events, s') && Inv(s') && Quiet(s, s') && s'.commit == Between && s'.table == s.table
    ensures s.commit == Between ==> s' == s
    ensures s.commit != Between ==> s'.swapped == s.swapped - {s.commit.dir}
    decreases s.commit.Frozen?, s.commit.Logged?
  {
    events, s' := [], s;
    if s.commit != Between {
      var e, s1 := CommitOne(s);
      events, s' := FinishCommit(s1);
      events := Then(s, e, events, s');
    }
  }

  /** The commit thread takes the transaction of `d`. */
  lemma CommitNext(s: State, d: Ino) returns (events: seq<Event>, s': State)
    requires Inv(s) && s.commit == Between && d in s.swapped
    ensures Reaches(s, events, s') && Inv(s') && Quiet(s, s')
    ensures s'.commit == Between && s'.swapped == s.swapped - {d} && s'.table == s.table
  {
    CommitGoesOn(s, d);
    var s1 := DoFreeze(s, d);
    StepKeeps(s, Freeze(d));
    events, s' := FinishCommit(s1);
    events := Then(s, Freeze(d), events, s');
  }

  /** Every swapped-out transaction is committed. */
  lemma {:induction false} CommitSwapped(s: State) returns (events: seq<Event>, s': State)
    requires Inv(s) && s.commit == Between
    ensures Reaches(s, events, s') && Inv(s') && Quiet(s, s')
    ensures s'.commit == Between && s'.swapped == map[] && s'.table == s.table
    decreases |s.swapped|
  {
    events, s' := [], s;
    if s.swapped != map[] {
      var d :| d in s.swapped;
      Fewer(s.swapped, d);
      var es, s1 := CommitNext(s, d);
      var fs;
      fs, s' := CommitSwapped(s1);
      Joined(s, es, s1, fs, s');
      events := es + fs;
    }
  }

  lemma Fewer(m: map<Ino, nat>, d: Ino)
    requires d in m
    ensures |m - {d}| < |m|
  {
    assert (m - {d}).Keys == m.Keys - {d};
    assert |m.Keys| == |m| && |(m - {d}).Keys| == |m - {d}|;
  }

  /** Everything in the table is committed as well. */
  lemma CommitAll(s: State) returns (events: seq<Event>, s': State)
    requires Inv(s)
    ensures Reaches(s, events, s') && Inv(s') && Quiet(s, s')
    ensures s'.commit == Between && s'.swapped == map[] && s'.table == map[]
  {
    var es, s1 := FinishCommit(s);
    var fs, s2 := CommitSwapped(s1);
    Joined(s, es, s1, fs, s2);
    var s3 := DoReplaceMap(s2);
    StepKeeps(s2, ReplaceMap);
    var gs;
    gs, s' := CommitSwapped(s3);
    var hs := Then(s2, ReplaceMap, gs, s');
    Joined(s, es + fs, s2, hs, s');
    events := (es + fs) + hs;
  }

  // ---- The checkpoint threads ----

  /** Only line `w` and the store moved. */
  ghost predicate OnlyLine(s: State, s': State, w: nat) {
    && Quiet(s, s') && s'.table == s.table && s'.swapped == s.swapped && s'.commit == s.commit
    && |s'.queues| == |s.queues| == NUM_CP_THREAD == |s'.workers| == |s.workers|
    && forall i :: 0 <= i < NUM_CP_THREAD && i != w ==>
         s'.queues[i] == s.queues[i] && s'.workers[i] == s.workers[i]
  }

  /** A checkpoint thread that has not crashed and has work can go on. */
  lemma WorkerGoesOn(s: State, w: nat)
    requires Shape(s) && w < NUM_CP_THREAD
    ensures s.workers[w].Waiting? && s.queues[w] != [] ==> CanDispatch(s, w)
    ensures s.workers[w].Took? ==> CanLoad(s, w)
    ensures s.workers[w].Loaded? ==> CanWrite(s, w)
    ensures s.workers[w].Synced? ==> CanClear(s, w)
  {
  }

  /** How far a checkpoint thread is from the end of its line. */
  function Left(w: Worker, queue: seq<nat>): nat {
    5 * |queue| +
    match w
    case Waiting => 0
    case Took(_) => 4
    case Loaded(_, _) => 3
    case Synced(_) => 2
    case Crashed(_) => 1
  }

  ghost predicate Finished(s: State, w: nat)
    requires w < |s.workers| && w < |s.queues|
  {
    s.workers[w].Crashed? || (s.workers[w].Waiting? && s.queues[w] == [])
  }

  lemma WorkerOne(s: State, w: nat) returns (e: Event, s1: State)
    requires Inv(s) && w < NUM_CP_THREAD && !Finished(s, w)
    ensures Enabled(s, e) && s1 == Do(s, e) && Inv(s1) && OnlyLine(s, s1, w)
    ensures Left(s1.workers[w], s1.queues[w]) < Left(s.workers[w], s.queues[w])
  {
    WorkerGoesOn(s, w);
    e := match s.workers[w]
      case Waiting => Dispatch(w)
      case Took(_) => Load(w)
      case Loaded(_, _) => Write(w)
      case _ => Clear(w);
    s1 := Do(s, e);
    StepKeeps(s, e);
    OneStep(s, w, e);
  }

  lemma {:induction false} FinishLine(s: State, w: nat) returns (events: seq<Event>, s': State)
    requires Inv(s) && w < NUM_CP_THREAD
    ensures Reaches(s, events, s') && Inv(s') && OnlyLine(s, s', w) && Finished(s', w)
    decreases Left(s.workers[w], s.queues[w])
  {
    events, s' := [], s;
    if !Finished(s, w) {
      var e, s1 := WorkerOne(s, w);
      events, s' := FinishLine(s1, w);
      events := Then(s, e, events, s');
      OnlyLineOn(s, s1, s', w);
    }
  }

  lemma OnlyLineOn(a: State, b: State, c: State, w: nat)
    requires OnlyLine(a, b, w) && OnlyLine(b, c, w)
    ensures OnlyLine(a, c, w)
  {
  }

  lemma OneStep(s: State, w: nat, e: Event)
    requires Shape(s) && Enabled(s, e) && (e == Dispatch(w) || e == Load(w) || e == Write(w) || e == Clear(w))
    ensures OnlyLine(s, Do(s, e), w)
    ensures Left(Do(s, e).workers[w], Do(s, e).queues[w]) < Left(s.workers[w], s.queues[w])
  {
  }

  ghost predicate AllFinished(s: State, n: nat) {
    && |s.workers| == NUM_CP_THREAD == |s.queues| && n <= NUM_CP_THREAD
    && forall i: nat :: i < n ==> Finished(s, i)
  }

  lemma {:induction false} FinishLines(s: State, n: nat) returns (events: seq<Event>, s': State)
    requires Inv(s) && n <= NUM_CP_THREAD
    ensures Reaches(s, events, s') && Inv(s') && Quiet(s, s') && AllFinished(s', n)
    ensures s'.table == s.table && s'.swapped == s.swapped && s'.commit == s.commit
  {
    events, s' := [], s;
    if n > 0 {
      var es, s1 := FinishLines(s, n - 1);
      var fs;
      fs, s' := FinishLine(s1, n - 1);
      StillFinished(s1, s', n - 1);
      Joined(s, es, s1, fs, s');
      events := es + fs;
    }
  }

  lemma StillFinished(s: State, s': State, n: nat)
    requires n < NUM_CP_THREAD && AllFinished(s, n) && OnlyLine(s, s', n) && Finished(s', n)
    ensures AllFinished(s', n + 1)
  {
    forall i: nat | i < n + 1 ensures Finished(s', i) {
      if i < n { assert Finished(s, i); }
    }
  }

  // ---- Theorem ----

  lemma {:induction false} BothRuns(s0: State, events: seq<Event>, s: State, more: seq<Event>, s': State)
    requires Init(s0) && Reaches(s0, events, s) && Reaches(s, more, s')
    ensures Reaches(s0, events + more, s')
  {
    Joined(s0, events, s, more, s');
  }

  /**
    From every reachable state, with calls under way or not, the commit and checkpoint threads can run until no
    transaction is open, in commit or queued, but behind a checkpoint thread that crashed; and then the dentry
    object of a directory holds exactly the history, unless its queue is one of those or one of its own commits
    was stray.
   */
  lemma EverythingReachesTheStore(s0: State, events: seq<Event>, s: State, d: Ino)
      returns (more: seq<Event>, s': State)
    requires Init(s0) && Reaches(s0, events, s) && LegalRun(Lookup(s0.base, d), History(s, d))
    ensures Reaches(s0, events + more, s') && s'.threads == s.threads && AllFinished(s', NUM_CP_THREAD)
    ensures s'.commit == Between && s'.swapped == map[] && s'.table == map[]
    ensures !s'.workers[Route(d)].Crashed? && d !in s'.seen.stray ==>
      Stored(s', d) == Fold(Lookup(s0.base, d), History(s, d))
  {
    Reached(s0, events, s);
    var es, s1 := CommitAll(s);
    var fs;
    fs, s' := FinishLines(s1, NUM_CP_THREAD);
    Joined(s, es, s1, fs, s');
    more := es + fs;
    BothRuns(s0, events, s, more, s');
    if !s'.workers[Route(d)].Crashed? && d !in s'.seen.stray {
      NothingIssued(s', d);
      DrainedStoreIsHistory(s0, events + more, s', d);
    }
  }

  lemma Reached(s0: State, events: seq<Event>, s: State)
    requires Init(s0) && Reaches(s0, events, s)
    ensures Inv(s)
  {
    InitInv(s0);
    RunKeeps(s0, events, s);
  }

  lemma NothingIssued(s: State, d: Ino)
    requires AllFinished(s, NUM_CP_THREAD) && !s.workers[Route(d)].Crashed?
    ensures Issued(s.txs, s.queues, s.workers, d) == []
  {
    assert Finished(s, Route(d));
  }
}
