/**
  Where every transaction is, in every state of every run: it is never lost, never duplicated, and written to
  the store only after its record is in the journal (client/journal/{journal_table,commit,checkpoint}.cpp).
 */
module Accounting {
  import opened Types
  import opened Transactions
  import P = Pipeline
  import Proof = PipelineProof
  import J = JournalTheorems
  import opened JournalBytes

  /** What goes through one checkpoint thread: the transaction in its hands, then its queue. */
  function Line(queue: seq<nat>, w: P.Worker): seq<nat> {
    (if w.Waiting? then [] else [w.tx]) + queue
  }

  /** No transaction is twice in a line, or in a line after its checkpoint. */
  ghost predicate LinesOk(queues: seq<seq<nat>>, workers: seq<P.Worker>, cleared: set<nat>) {
    && |queues| == P.NUM_CP_THREAD == |workers|
    && forall i: nat :: i < P.NUM_CP_THREAD ==> LineOk(Line(queues[i], workers[i]), cleared)
  }

  ghost predicate LineOk(line: seq<nat>, cleared: set<nat>) {
    Distinct(line) && forall k :: 0 <= k < |line| ==> line[k] !in cleared
  }

  /** The transaction the commit thread has logged and not issued yet is in no line. */
  ghost predicate LoggedApart(
    commit: P.CommitPc, swapped: map<Ino, nat>, queues: seq<seq<nat>>, workers: seq<P.Worker>, cleared: set<nat>)
    requires |queues| == P.NUM_CP_THREAD == |workers|
  {
    commit.Logged? && commit.dir in swapped ==>
      Apart(swapped[commit.dir], queues, workers, cleared)
  }

  ghost predicate Apart(id: nat, queues: seq<seq<nat>>, workers: seq<P.Worker>, cleared: set<nat>)
    requires |queues| == P.NUM_CP_THREAD == |workers|
  {
    id !in cleared && forall i: nat :: i < P.NUM_CP_THREAD ==> id !in Line(queues[i], workers[i])
  }

  /** A committed transaction: in the commit thread's hands, in its line, or checkpointed. */
  ghost predicate Somewhere(
    dir: Ino, id: nat, commit: P.CommitPc, swapped: map<Ino, nat>, queues: seq<seq<nat>>, workers: seq<P.Worker>,
    cleared: set<nat>)
    requires |queues| == P.NUM_CP_THREAD == |workers|
  {
    || (commit != P.Between && Proof.Holds(swapped, commit.dir, id))
    || id in Line(queues[P.Route(dir)], workers[P.Route(dir)])
    || id in cleared
  }

  ghost predicate CommittedOk(
    txs: seq<Tx>, commit: P.CommitPc, swapped: map<Ino, nat>, queues: seq<seq<nat>>, workers: seq<P.Worker>,
    cleared: set<nat>)
    requires |queues| == P.NUM_CP_THREAD == |workers|
  {
    forall id: nat :: id < |txs| && txs[id].committed ==>
      Somewhere(txs[id].dir, id, commit, swapped, queues, workers, cleared)
  }

  ghost predicate Counted(p: P.State, cleared: set<nat>) {
    && LinesOk(p.queues, p.workers, cleared) && LoggedApart(p.commit, p.swapped, p.queues, p.workers, cleared)
    && CommittedOk(p.txs, p.commit, p.swapped, p.queues, p.workers, cleared)
  }

  // ---- Steps ----

  /** Steps that neither commit nor touch a line. */
  lemma ElsewhereCounts(p: P.State, p': P.State, cleared: set<nat>)
    requires Counted(p, cleared)
    requires p'.queues == p.queues && p'.workers == p.workers && p'.commit == p.commit
    requires p'.swapped == p.swapped || p.commit == P.Between
    requires forall id: nat :: id < |p'.txs| && p'.txs[id].committed ==>
      id < |p.txs| && p.txs[id].committed && p'.txs[id].dir == p.txs[id].dir
    ensures Counted(p', cleared)
  {
    forall id: nat | id < |p'.txs| && p'.txs[id].committed
      ensures Somewhere(p'.txs[id].dir, id, p'.commit, p'.swapped, p'.queues, p'.workers, cleared)
    {
      assert Somewhere(p.txs[id].dir, id, p.commit, p.swapped, p.queues, p.workers, cleared);
    }
  }

  lemma ThreadCounts(p: P.State, e: P.Event, cleared: set<nat>)
    requires Counted(p, cleared) && P.Enabled(p, e) && (e.Begin? || e.Find? || e.Insert? || e.Apply?)
    ensures Counted(P.Do(p, e), cleared)
  {
    ThreadPast(p, e);
    ThreadTxs(p, e);
    ElsewhereCounts(p, P.Do(p, e), cleared);
  }

  lemma ThreadTxs(p: P.State, e: P.Event)
    requires P.Enabled(p, e) && (e.Begin? || e.Find? || e.Insert? || e.Apply?)
    ensures forall id: nat :: id < |P.Do(p, e).txs| && P.Do(p, e).txs[id].committed ==>
      id < |p.txs| && p.txs[id].committed && P.Do(p, e).txs[id].dir == p.txs[id].dir
  {
    match e {
      case Apply(t) => LandedTxs(p, t, Merged(p.txs[p.threads[t].tx], p.threads[t].call.op));
      case _ =>
    }
  }

  lemma LandedTxs(p: P.State, t: nat, m: Merge)
    requires P.CanApply(p, t)
    requires var tx := p.txs[p.threads[t].tx]; m.tx.dir == tx.dir && m.tx.committed == tx.committed
    ensures var p' := P.Landed(p, t, m);
      forall id: nat :: id < |p'.txs| && p'.txs[id].committed ==>
        id < |p.txs| && p.txs[id].committed && p'.txs[id].dir == p.txs[id].dir
  {
  }

  lemma FreezeCounts(p: P.State, d: Ino, cleared: set<nat>)
    requires Counted(p, cleared) && P.CanFreeze(p, d)
    ensures Counted(P.DoFreeze(p, d), cleared)
  {
    var p' := P.DoFreeze(p, d);
    forall id: nat | id < |p'.txs| && p'.txs[id].committed
      ensures Somewhere(p'.txs[id].dir, id, p'.commit, p'.swapped, p'.queues, p'.workers, cleared)
    {
      if id != p.swapped[d] {
        assert Somewhere(p.txs[id].dir, id, p.commit, p.swapped, p.queues, p.workers, cleared);
      }
    }
  }

  /** What is in a line was logged, and what is being frozen was not. */
  lemma AppendCounts(p: P.State, offsets: map<nat, nat>, cleared: set<nat>)
    requires Counted(p, cleared) && P.CanAppend(p) && Past(p, offsets) && cleared <= offsets.Keys
    ensures Counted(P.DoAppend(p), cleared)
  {
    var p', id := P.DoAppend(p), p.swapped[p.commit.dir];
    forall i: nat | i < P.NUM_CP_THREAD ensures id !in Line(p.queues[i], p.workers[i]) {
      LineLogged(p, offsets, i);
    }
    forall x: nat | x < |p'.txs| && p'.txs[x].committed
      ensures Somewhere(p'.txs[x].dir, x, p'.commit, p'.swapped, p'.queues, p'.workers, cleared)
    {
      assert Somewhere(p.txs[x].dir, x, p.commit, p.swapped, p.queues, p.workers, cleared);
    }
  }

  lemma LineLogged(p: P.State, offsets: map<nat, nat>, i: nat)
    requires Past(p, offsets) && |p.queues| == P.NUM_CP_THREAD == |p.workers| && i < P.NUM_CP_THREAD
    ensures forall id :: id in Line(p.queues[i], p.workers[i]) ==> id in offsets
  {
    forall id | id in Line(p.queues[i], p.workers[i]) ensures id in offsets {
      if id in p.queues[i] {
        var k :| 0 <= k < |p.queues[i]| && p.queues[i][k] == id;
      }
    }
  }

  lemma Appended(queue: seq<nat>, w: P.Worker, id: nat)
    ensures Line(queue + [id], w) == Line(queue, w) + [id]
  {
  }

  lemma OneMoreInLine(line: seq<nat>, id: nat, cleared: set<nat>)
    requires LineOk(line, cleared) && id !in line && id !in cleared
    ensures LineOk(line + [id], cleared)
  {
    assert forall k :: 0 <= k < |line| ==> line[k] in line;
  }

  lemma IssueCounts(p: P.State, cleared: set<nat>)
    requires Counted(p, cleared) && P.CanIssue(p)
    requires p.swapped[p.commit.dir] < |p.txs| && p.txs[p.swapped[p.commit.dir]].dir == p.commit.dir
    ensures Counted(P.DoIssue(p), cleared)
  {
    var p', d := P.DoIssue(p), p.commit.dir;
    var r, id := P.Route(d), p.swapped[d];
    Appended(p.queues[r], p.workers[r], id);
    OneMoreInLine(Line(p.queues[r], p.workers[r]), id, cleared);
    forall i: nat | i < P.NUM_CP_THREAD ensures LineOk(Line(p'.queues[i], p'.workers[i]), cleared) {
      assert LineOk(Line(p.queues[i], p.workers[i]), cleared);
    }
    var line := Line(p.queues[r], p.workers[r]);
    assert (line + [id])[|line|] == id;
    forall x: nat | x < |p'.txs| && p'.txs[x].committed
      ensures Somewhere(p'.txs[x].dir, x, p'.commit, p'.swapped, p'.queues, p'.workers, cleared)
    {
      assert Somewhere(p.txs[x].dir, x, p.commit, p.swapped, p.queues, p.workers, cleared);
    }
  }

  /** Steps that leave every line as it was. */
  lemma SameLinesCount(p: P.State, p': P.State, cleared: set<nat>)
    requires Counted(p, cleared) && |p'.queues| == P.NUM_CP_THREAD == |p'.workers|
    requires p'.txs == p.txs && p'.commit == p.commit && p'.swapped == p.swapped
    requires forall i: nat :: i < P.NUM_CP_THREAD ==>
      Line(p'.queues[i], p'.workers[i]) == Line(p.queues[i], p.workers[i])
    ensures Counted(p', cleared)
  {
    forall x: nat | x < |p'.txs| && p'.txs[x].committed
      ensures Somewhere(p'.txs[x].dir, x, p'.commit, p'.swapped, p'.queues, p'.workers, cleared)
    {
      assert Somewhere(p.txs[x].dir, x, p.commit, p.swapped, p.queues, p.workers, cleared);
    }
  }

  lemma WorkerCounts(p: P.State, e: P.Event, cleared: set<nat>)
    requires Counted(p, cleared) && P.Enabled(p, e) && (e.Dispatch? || e.Load? || e.Write?)
    ensures Counted(P.Do(p, e), cleared)
  {
    var p' := P.Do(p, e);
    forall i: nat | i < P.NUM_CP_THREAD
      ensures Line(p'.queues[i], p'.workers[i]) == Line(p.queues[i], p.workers[i])
    {
      if e.Dispatch? && i == e.w { assert p.queues[i] == [p.queues[i][0]] + p.queues[i][1..]; }
    }
    SameLinesCount(p, p', cleared);
  }

  lemma FirstLeaves(line: seq<nat>, cleared: set<nat>)
    requires LineOk(line, cleared) && line != []
    ensures LineOk(line[1..], cleared + {line[0]}) && forall x :: x in line ==> x == line[0] || x in line[1..]
  {
    forall x | x in line && x != line[0] ensures x in line[1..] {
      var k :| 0 <= k < |line| && line[k] == x;
      assert line[1..][k - 1] == x;
    }
  }

  lemma ClearCounts(p: P.State, w: nat, cleared: set<nat>)
    requires Counted(p, cleared) && P.CanClear(p, w) && Proof.WorkersOk(p.txs, p.store, p.workers)
    requires Proof.QueuesOk(p.txs, p.queues)
    requires p.commit.Logged? && p.commit.dir in p.swapped ==> p.swapped[p.commit.dir] != p.workers[w].tx
    ensures Counted(P.DoClear(p, w), cleared + {p.workers[w].tx})
  {
    var p', id := P.DoClear(p, w), p.workers[w].tx;
    var more := cleared + {id};
    var line := Line(p.queues[w], p.workers[w]);
    FirstLeaves(line, cleared);
    assert line[1..] == p.queues[w] == Line(p'.queues[w], p'.workers[w]);
    forall i: nat | i < P.NUM_CP_THREAD ensures LineOk(Line(p'.queues[i], p'.workers[i]), more) {
      if i != w {
        assert LineOk(Line(p.queues[i], p.workers[i]), cleared);
        OtherLine(p, i, w);
      }
    }
    forall x: nat | x < |p'.txs| && p'.txs[x].committed
      ensures Somewhere(p'.txs[x].dir, x, p'.commit, p'.swapped, p'.queues, p'.workers, more)
    {
      assert Somewhere(p.txs[x].dir, x, p.commit, p.swapped, p.queues, p.workers, cleared);
    }
  }

  /** A transaction is in the line of its own directory only. */
  lemma OtherLine(p: P.State, i: nat, w: nat)
    requires Proof.WorkersOk(p.txs, p.store, p.workers) && Proof.QueuesOk(p.txs, p.queues)
    requires i < P.NUM_CP_THREAD && w < P.NUM_CP_THREAD && i != w && !p.workers[w].Waiting?
    ensures p.workers[w].tx !in Line(p.queues[i], p.workers[i])
  {
    LineRouted(p, i);
    assert Proof.Routed(p.txs, w, p.workers[w].tx);
  }

  lemma LineRouted(p: P.State, i: nat)
    requires Proof.WorkersOk(p.txs, p.store, p.workers) && Proof.QueuesOk(p.txs, p.queues) && i < P.NUM_CP_THREAD
    ensures forall id :: id in Line(p.queues[i], p.workers[i]) ==> Proof.Routed(p.txs, i, id)
  {
    forall id | id in Line(p.queues[i], p.workers[i]) ensures Proof.Routed(p.txs, i, id) {
      if id in p.queues[i] {
        var k :| 0 <= k < |p.queues[i]| && p.queues[i][k] == id;
      }
    }
  }

  lemma StepCounts(s: State, e: Event)
    requires Inv(s) && Counted(s.p, s.cleared) && Enabled(s, e)
    ensures Counted(Do(s, e).p, Do(s, e).cleared)
  {
    match e {
      case Stat =>
      case Log(_, _) => AppendCounts(s.p, s.offsets, s.cleared);
      case Clear(w) =>
        NotLogged(s.p, w, s.cleared);
        ClearCounts(s.p, w, s.cleared);
      case Other(n) => OtherCounts(s.p, n, s.cleared);
    }
  }

  lemma OtherCounts(p: P.State, n: P.Event, cleared: set<nat>)
    requires Counted(p, cleared) && P.Enabled(p, n) && !n.Append? && !n.Clear?
    requires Proof.SwapOk(p.txs, p.table, p.swapped, p.commit)
    ensures Counted(P.Do(p, n), cleared)
  {
    if n.Begin? || n.Find? || n.Insert? || n.Apply? {
      ThreadCounts(p, n, cleared);
    } else if n.Dispatch? || n.Load? || n.Write? {
      WorkerCounts(p, n, cleared);
    } else {
      match n {
        case Freeze(d) => FreezeCounts(p, d, cleared);
        case Issue => IssueCounts(p, cleared);
        case ReplaceMap => ElsewhereCounts(p, P.DoReplaceMap(p), cleared);
      }
    }
  }

  lemma NotLogged(p: P.State, w: nat, cleared: set<nat>)
    requires Counted(p, cleared) && P.CanClear(p, w)
    ensures p.commit.Logged? && p.commit.dir in p.swapped ==> p.swapped[p.commit.dir] != p.workers[w].tx
  {
    assert p.workers[w].tx == Line(p.queues[w], p.workers[w])[0];
  }

  lemma {:induction false} RunCounts(s0: State, events: seq<Event>, s: State)
    requires Inv(s0) && Counted(s0.p, s0.cleared) && Reaches(s0, events, s)
    ensures Inv(s) && Counted(s.p, s.cleared)
    decreases |events|
  {
    if events != [] {
      StepKeeps(s0, events[0]);
      StepCounts(s0, events[0]);
      RunCounts(Do(s0, events[0]), events[1..], s);
    }
  }

  lemma Reached(s0: State, events: seq<Event>, s: State)
    requires Init(s0) && Reaches(s0, events, s)
    ensures Inv(s) && Counted(s.p, s.cleared)
  {
    InitInv(s0);
    NothingYet(s0.p, s0.cleared);
    RunCounts(s0, events, s);
  }

  lemma NothingYet(p: P.State, cleared: set<nat>)
    requires P.Init(p) && cleared == {}
    ensures Counted(p, cleared)
  {
  }

  // ---- Theorems ----

  /** Transaction `id` is in its directory's line, once, and in no other line. */
  ghost predicate InLine(p: P.State, id: nat) {
    && id < |p.txs| && |p.queues| == P.NUM_CP_THREAD == |p.workers|
    && id in Line(p.queues[P.Route(p.txs[id].dir)], p.workers[P.Route(p.txs[id].dir)])
  }

  /**
    Conservation: in every reachable state each transaction ever created is in exactly one place: the journal
    table, the map the commit thread works on, the line of its directory, or checkpointed.
   */
  lemma TransactionsConserved(s0: State, events: seq<Event>, s: State, id: nat)
    requires Init(s0) && Reaches(s0, events, s) && id < |s.p.txs|
    ensures var d := s.p.txs[id].dir;
      var table, swapped := Proof.Holds(s.p.table, d, id), Proof.Holds(s.p.swapped, d, id);
      && (table || swapped || InLine(s.p, id) || id in s.cleared)
      && !(table && swapped) && !(InLine(s.p, id) && id in s.cleared)
      && !((table || swapped) && (InLine(s.p, id) || id in s.cleared))
  {
    Reached(s0, events, s);
    if s.p.txs[id].committed {
      CommittedPlace(s, id);
    } else {
      OpenPlace(s, id);
    }
  }

  lemma CommittedPlace(s: State, id: nat)
    requires Inv(s) && Counted(s.p, s.cleared) && id < |s.p.txs| && s.p.txs[id].committed
    ensures var d := s.p.txs[id].dir;
      && !Proof.Holds(s.p.table, d, id) && !(InLine(s.p, id) && id in s.cleared)
      && (Proof.Holds(s.p.swapped, d, id) || InLine(s.p, id) || id in s.cleared)
      && !(Proof.Holds(s.p.swapped, d, id) && (InLine(s.p, id) || id in s.cleared))
  {
    var p, d := s.p, s.p.txs[id].dir;
    assert Somewhere(d, id, p.commit, p.swapped, p.queues, p.workers, s.cleared);
    assert LineOk(Line(p.queues[P.Route(d)], p.workers[P.Route(d)]), s.cleared);
    if Proof.Holds(p.swapped, d, id) {
      assert Proof.Committing(p.commit, d);
      LineLogged(p, s.offsets, P.Route(d));
    }
  }

  lemma ClearedCommitted(s: State, id: nat)
    requires LoggedOk(s.p.txs, s.laid, s.offsets, s.raws) && s.cleared <= s.offsets.Keys && id < |s.p.txs|
    ensures id in s.cleared ==> s.p.txs[id].committed
  {
    assert id in s.offsets ==> Found(s.p.txs, s.laid, id);
  }

  lemma OpenPlace(s: State, id: nat)
    requires Inv(s) && Counted(s.p, s.cleared) && id < |s.p.txs| && !s.p.txs[id].committed
    ensures var d := s.p.txs[id].dir;
      && (Proof.Holds(s.p.table, d, id) <==> !Proof.Holds(s.p.swapped, d, id))
      && !InLine(s.p, id) && id !in s.cleared
  {
    ClearedCommitted(s, id);
    if InLine(s.p, id) { LineRouted(s.p, P.Route(s.p.txs[id].dir)); }
  }

  /**
    A journal is written ahead: whatever a checkpoint thread has taken, may be writing to the store, or has
    finished with, has its record in the journal of its directory, as it was frozen.
   */
  lemma JournalledBeforeWritten(s0: State, events: seq<Event>, s: State, id: nat)
    requires Init(s0) && Reaches(s0, events, s) && id < |s.p.txs| && (InLine(s.p, id) || id in s.cleared)
    ensures var ids := Laid(s.laid, s.p.txs[id].dir); id in ids
    ensures OwnRecord(s, s.p.txs[id].dir, id)
  {
    Reached(s0, events, s);
    if InLine(s.p, id) { LineLogged(s.p, s.offsets, P.Route(s.p.txs[id].dir)); }
    var ids := Laid(s.laid, s.p.txs[id].dir);
    assert Found(s.p.txs, s.laid, id);
    var k :| 0 <= k < |ids| && ids[k] == id;
    assert FileOk(s, s.p.txs[id].dir);
    LaidIsRecord(s, s.p.txs[id].dir, k);
  }

  /** A transaction is in no line but that of its directory, and there once. */
  lemma OnlyItsLine(s0: State, events: seq<Event>, s: State, i: nat)
    requires Init(s0) && Reaches(s0, events, s) && i < P.NUM_CP_THREAD
    ensures |s.p.queues| == P.NUM_CP_THREAD == |s.p.workers|
    ensures var line := Line(s.p.queues[i], s.p.workers[i]);
      && (forall j, k :: 0 <= j < k < |line| ==> line[j] != line[k])
      && forall id :: id in line ==> id < |s.p.txs| && P.Route(s.p.txs[id].dir) == i
  {
    Reached(s0, events, s);
    LineIs(s.p, s.cleared, i);
  }

  lemma LineIs(p: P.State, cleared: set<nat>, i: nat)
    requires LinesOk(p.queues, p.workers, cleared) && i < P.NUM_CP_THREAD
    requires Proof.WorkersOk(p.txs, p.store, p.workers) && Proof.QueuesOk(p.txs, p.queues)
    ensures Distinct(Line(p.queues[i], p.workers[i]))
    ensures forall id :: id in Line(p.queues[i], p.workers[i]) ==> id < |p.txs| && P.Route(p.txs[id].dir) == i
  {
    assert LineOk(Line(p.queues[i], p.workers[i]), cleared);
    LineRouted(p, i);
  }
}
