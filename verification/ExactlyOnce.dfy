/** Exactly-once journalling, and the run that shows why the main theorem excludes stray commits. */
module ExactlyOnce {
  import opened Types
  import opened Transactions
  import opened Coalescing
  import opened Pipeline
  import opened PipelineProof
  import opened ThreadSteps
  import opened JournalTheorems

  /** The operations merged into transaction `t`, in order. */
  function OpsIn(placed: seq<Placement>, t: nat): seq<Op> {
    if placed == [] then []
    else
      var p := placed[|placed| - 1];
      var front := OpsIn(placed[..|placed| - 1], t);
      if p.tx == t then front + [p.op] else front
  }

  /**
    Call numbers: those under way are distinct and not placed, those placed are distinct, those returned are
    placed. What was placed is what was called for.
   */
  ghost predicate CallsOk(calls: seq<Call>, threads: map<nat, Pc>, placed: seq<Placement>, returned: set<nat>) {
    && (forall t :: t in threads ==> Made(calls, threads[t].call) && threads[t].call.id !in returned)
    && (forall t, u :: t in threads && u in threads && threads[t].call.id == threads[u].call.id ==> t == u)
    && (forall k :: 0 <= k < |placed| ==> placed[k].id < |calls| && calls[placed[k].id].op == placed[k].op)
    && (forall t, k :: t in threads && 0 <= k < |placed| ==> threads[t].call.id != placed[k].id)
    && (forall j, k :: 0 <= j < |placed| && 0 <= k < |placed| && placed[j].id == placed[k].id ==> j == k)
    && (forall c :: c in returned ==> exists k :: 0 <= k < |placed| && placed[k].id == c)
  }

  ghost predicate Made(calls: seq<Call>, c: Call) { c.id < |calls| && calls[c.id] == c }

  /** A call is placed in a transaction of its own directory. */
  ghost predicate AimOk(txs: seq<Tx>, calls: seq<Call>, placed: seq<Placement>) {
    forall k :: 0 <= k < |placed| ==> InDir(txs, calls, placed[k])
  }

  ghost predicate InDir(txs: seq<Tx>, calls: seq<Call>, p: Placement) {
    p.id < |calls| && p.tx < |txs| && txs[p.tx].dir == calls[p.id].dir
  }

  /** A transaction holds exactly what was merged into it, and each merge took effect. */
  ghost predicate ContentOk(txs: seq<Tx>, placed: seq<Placement>) {
    && (forall k :: 0 <= k < |placed| ==> placed[k].tx < |txs|)
    && (forall t :: 0 <= t < |txs| ==> MadeOf(txs[t], OpsIn(placed, t)))
  }

  ghost predicate MadeOf(tx: Tx, ops: seq<Op>) {
    tx.(committed := false) == RunOps(tx.dir, ops) && AllEffective(tx.dir, ops)
  }

  /** A record is its transaction, frozen, in every later state. */
  ghost predicate RecordsOk(txs: seq<Tx>, records: seq<Record>) {
    forall k :: 0 <= k < |records| ==>
      records[k].tx < |txs| && txs[records[k].tx].committed && records[k].content == txs[records[k].tx]
  }

  ghost predicate Once(s: State) {
    && CallsOk(s.seen.calls, s.threads, s.seen.placed, s.seen.returned) && AimOk(s.txs, s.seen.calls, s.seen.placed)
    && ContentOk(s.txs, s.seen.placed) && RecordsOk(s.txs, s.seen.records)
  }

  lemma {:induction false} NothingIn(placed: seq<Placement>, t: nat)
    requires forall k :: 0 <= k < |placed| ==> placed[k].tx != t
    ensures OpsIn(placed, t) == []
  {
    if placed != [] { NothingIn(placed[..|placed| - 1], t); }
  }

  /** Threads that only move, or leave, keep their calls. */
  lemma MovedCalls(
      calls: seq<Call>, threads: map<nat, Pc>, threads': map<nat, Pc>, placed: seq<Placement>, returned: set<nat>)
    requires CallsOk(calls, threads, placed, returned)
    requires forall t :: t in threads' ==> t in threads && threads'[t].call == threads[t].call
    ensures CallsOk(calls, threads', placed, returned)
  {
  }

  lemma BegunCalls(calls: seq<Call>, threads: map<nat, Pc>, placed: seq<Placement>, returned: set<nat>, t: nat, c: Call)
    requires CallsOk(calls, threads, placed, returned) && t !in threads && c.id == |calls|
    ensures CallsOk(calls + [c], threads[t := Looking(c)], placed, returned)
  {
    var calls', threads' := calls + [c], threads[t := Looking(c)];
    forall x | x in returned ensures x < |calls| {
      var k :| 0 <= k < |placed| && placed[k].id == x;
    }
    forall u | u in threads' ensures Made(calls', threads'[u].call) && threads'[u].call.id !in returned {
      if u != t { assert Made(calls, threads[u].call); }
    }
  }

  lemma BegunAim(txs: seq<Tx>, calls: seq<Call>, placed: seq<Placement>, c: Call)
    requires AimOk(txs, calls, placed)
    ensures AimOk(txs, calls + [c], placed)
  {
    forall k | 0 <= k < |placed| ensures InDir(txs, calls + [c], placed[k]) {
      assert InDir(txs, calls, placed[k]);
    }
  }

  lemma LandedCalls(
      calls: seq<Call>, threads: map<nat, Pc>, placed: seq<Placement>, returned: set<nat>, t: nat, tx: nat,
      done: set<nat>)
    requires CallsOk(calls, threads, placed, returned) && t in threads && done <= {threads[t].call.id}
    ensures var c := threads[t].call;
      CallsOk(calls, threads - {t}, placed + [Placement(c.id, c.op, tx)], returned + done)
  {
    var c := threads[t].call;
    var p := Placement(c.id, c.op, tx);
    var placed' := placed + [p];
    assert Made(calls, c);
    assert placed'[|placed|] == p;
    forall x | x in returned + done ensures exists k :: 0 <= k < |placed'| && placed'[k].id == x {
      if x in returned {
        var k :| 0 <= k < |placed| && placed[k].id == x;
        assert placed'[k].id == x;
      }
    }
  }

  lemma LandedAim(txs: seq<Tx>, calls: seq<Call>, placed: seq<Placement>, id: nat, x: Tx, c: Call)
    requires AimOk(txs, calls, placed) && id < |txs| && x.dir == txs[id].dir == c.dir && Made(calls, c)
    ensures AimOk(txs[id := x], calls, placed + [Placement(c.id, c.op, id)])
  {
    var placed' := placed + [Placement(c.id, c.op, id)];
    forall k | 0 <= k < |placed'| ensures InDir(txs[id := x], calls, placed'[k]) {
      if k < |placed| { assert InDir(txs, calls, placed[k]); }
    }
  }

  lemma RunOneMore(dir: Ino, ops: seq<Op>, op: Op)
    ensures RunOps(dir, ops + [op]) == Merged(RunOps(dir, ops), op).tx
    ensures AllEffective(dir, ops + [op]) <==>
      AllEffective(dir, ops) && Merged(RunOps(dir, ops), op).outcome.Effective()
  {
    assert (ops + [op])[..|ops|] == ops;
  }

  lemma LandedContent(txs: seq<Tx>, placed: seq<Placement>, id: nat, c: Call)
    requires ContentOk(txs, placed) && id < |txs| && Merged(txs[id], c.op).outcome.Effective()
    ensures ContentOk(txs[id := Merged(txs[id], c.op).tx], placed + [Placement(c.id, c.op, id)])
  {
    var tx, ops := txs[id], OpsIn(placed, id);
    assert MadeOf(tx, ops);
    assert !tx.committed && tx.(committed := false) == tx;
    RunOneMore(tx.dir, ops, c.op);
    var x := Merged(tx, c.op).tx;
    assert x.(committed := false) == x;
    PlacedContent(txs, placed, id, c, x);
  }

  lemma PlacedContent(txs: seq<Tx>, placed: seq<Placement>, id: nat, c: Call, x: Tx)
    requires ContentOk(txs, placed) && id < |txs| && MadeOf(x, OpsIn(placed, id) + [c.op])
    ensures ContentOk(txs[id := x], placed + [Placement(c.id, c.op, id)])
  {
    var txs', placed' := txs[id := x], placed + [Placement(c.id, c.op, id)];
    assert placed'[..|placed|] == placed;
    forall t | 0 <= t < |txs'| ensures MadeOf(txs'[t], OpsIn(placed', t)) {
      assert MadeOf(txs[t], OpsIn(placed, t));
    }
  }

  lemma FreshContent(txs: seq<Tx>, placed: seq<Placement>, d: Ino)
    requires ContentOk(txs, placed)
    ensures ContentOk(txs + [NewTx(d)], placed)
  {
    NothingIn(placed, |txs|);
    var txs' := txs + [NewTx(d)];
    forall t | 0 <= t < |txs'| ensures MadeOf(txs'[t], OpsIn(placed, t)) {
      if t < |txs| { assert MadeOf(txs[t], OpsIn(placed, t)); }
    }
  }

  lemma LandedRecords(txs: seq<Tx>, records: seq<Record>, id: nat, x: Tx)
    requires RecordsOk(txs, records) && id < |txs| && !txs[id].committed
    ensures RecordsOk(txs[id := x], records)
  {
  }

  lemma OnceLanded(s: State, t: nat, m: Merge)
    requires Once(s) && ThreadsOk(s.txs, s.threads) && CanApply(s, t) && m.outcome.Effective()
    requires var tx := s.txs[s.threads[t].tx]; !tx.committed && m.tx.dir == tx.dir
    requires var id, c := s.threads[t].tx, s.threads[t].call;
      ContentOk(s.txs[id := m.tx], s.seen.placed + [Placement(c.id, c.op, id)])
    ensures Once(Landed(s, t, m))
  {
    var id, c, s' := s.threads[t].tx, s.threads[t].call, Landed(s, t, m);
    var done := if m.outcome.Accepted? then {c.id} else {};
    LandedCalls(s.seen.calls, s.threads, s.seen.placed, s.seen.returned, t, id, done);
    assert s'.seen.returned == s.seen.returned + done;
    LandedAim(s.txs, s.seen.calls, s.seen.placed, id, m.tx, c);
    LandedRecords(s.txs, s.seen.records, id, m.tx);
  }

  lemma OnceApply(s: State, t: nat)
    requires Once(s) && ThreadsOk(s.txs, s.threads) && CanApply(s, t)
    ensures Once(DoApply(s, t))
  {
    var id, c := s.threads[t].tx, s.threads[t].call;
    if Merged(s.txs[id], c.op).outcome.Effective() {
      LandedContent(s.txs, s.seen.placed, id, c);
      MergeTouches(s.txs[id], c.op);
      OnceLanded(s, t, Merged(s.txs[id], c.op));
    } else {
      OnceGaveUp(s, t, Merged(s.txs[id], c.op));
    }
  }

  lemma OnceGaveUp(s: State, t: nat, m: Merge)
    requires Once(s) && CanApply(s, t) && !m.outcome.Effective()
    ensures Once(Landed(s, t, m))
  {
    var s' := Landed(s, t, m);
    assert s'.txs == s.txs && s'.seen == s.seen.(rejected := s'.seen.rejected);
    MovedCalls(s.seen.calls, s.threads, s'.threads, s.seen.placed, s.seen.returned);
  }

  /** Setting a committed flag changes no content and no directory. */
  lemma FrozenContent(txs: seq<Tx>, calls: seq<Call>, placed: seq<Placement>, records: seq<Record>, id: nat)
    requires ContentOk(txs, placed) && AimOk(txs, calls, placed) && RecordsOk(txs, records)
    requires id < |txs| && !txs[id].committed
    ensures var txs' := txs[id := txs[id].(committed := true)];
      ContentOk(txs', placed) && AimOk(txs', calls, placed) && RecordsOk(txs', records)
  {
    var txs' := txs[id := txs[id].(committed := true)];
    forall t | 0 <= t < |txs'| ensures MadeOf(txs'[t], OpsIn(placed, t)) { assert MadeOf(txs[t], OpsIn(placed, t)); }
    forall k | 0 <= k < |placed| ensures InDir(txs', calls, placed[k]) { assert InDir(txs, calls, placed[k]); }
  }

  lemma OnceFreeze(s: State, d: Ino)
    requires Shape(s) && Once(s) && CanFreeze(s, d)
    ensures Once(DoFreeze(s, d))
  {
    assert !s.txs[s.swapped[d]].committed;
    FrozenContent(s.txs, s.seen.calls, s.seen.placed, s.seen.records, s.swapped[d]);
  }

  lemma OnceInsert(s: State, t: nat)
    requires Once(s) && CanInsert(s, t)
    ensures Once(DoInsert(s, t))
  {
    var s' := DoInsert(s, t);
    MovedCalls(s.seen.calls, s.threads, s'.threads, s.seen.placed, s.seen.returned);
    FreshContent(s.txs, s.seen.placed, s.threads[t].call.dir);
    FreshAim(s.txs, s.seen.calls, s.seen.placed, s.threads[t].call.dir);
  }

  lemma FreshAim(txs: seq<Tx>, calls: seq<Call>, placed: seq<Placement>, d: Ino)
    requires AimOk(txs, calls, placed)
    ensures AimOk(txs + [NewTx(d)], calls, placed)
  {
    forall k | 0 <= k < |placed| ensures InDir(txs + [NewTx(d)], calls, placed[k]) {
      assert InDir(txs, calls, placed[k]);
    }
  }

  lemma OnceAppend(s: State)
    requires Shape(s) && Once(s) && CanAppend(s)
    ensures Once(DoAppend(s))
  {
    assert Committing(s.commit, s.commit.dir);
  }

  lemma OnceBegin(s: State, t: nat, d: Ino, op: Op)
    requires Once(s) && CanBegin(s, t, d, op)
    ensures Once(DoBegin(s, t, d, op))
  {
    var c := Call(|s.seen.calls|, d, op);
    BegunCalls(s.seen.calls, s.threads, s.seen.placed, s.seen.returned, t, c);
    BegunAim(s.txs, s.seen.calls, s.seen.placed, c);
  }

  lemma OnceKeeps(s: State, e: Event)
    requires Shape(s) && Once(s) && Enabled(s, e)
    ensures Once(Do(s, e))
  {
    if e.Begin? || e.Find? || e.Insert? || e.Apply? {
      OnceThread(s, e);
    } else {
      match e {
        case Freeze(d) => OnceFreeze(s, d);
        case Append => OnceAppend(s);
        case _ => OnceUnseen(s, e);
      }
    }
  }

  lemma OnceThread(s: State, e: Event)
    requires ThreadsOk(s.txs, s.threads) && Once(s) && Enabled(s, e) && (e.Begin? || e.Find? || e.Insert? || e.Apply?)
    ensures Once(Do(s, e))
  {
    match e {
      case Begin(t, d, op) => OnceBegin(s, t, d, op);
      case Find(t) => MovedCalls(s.seen.calls, s.threads, DoFind(s, t).threads, s.seen.placed, s.seen.returned);
      case Insert(t) => OnceInsert(s, t);
      case Apply(t) => OnceApply(s, t);
    }
  }

  lemma OnceUnseen(s: State, e: Event)
    requires Once(s) && Enabled(s, e)
    requires e.ReplaceMap? || e.Issue? || e.Dispatch? || e.Load? || e.Write? || e.Clear?
    ensures Once(Do(s, e))
  {
    assert Do(s, e).seen == s.seen && Do(s, e).txs == s.txs && Do(s, e).threads == s.threads;
  }

  lemma {:induction false} OnceRun(s0: State, events: seq<Event>, s: State)
    requires Inv(s0) && Once(s0) && Reaches(s0, events, s)
    ensures Once(s)
    decreases |events|
  {
    if events != [] {
      StepKeeps(s0, events[0]);
      OnceKeeps(s0, events[0]);
      OnceRun(Do(s0, events[0]), events[1..], s);
    }
  }

  lemma OnceReached(s0: State, events: seq<Event>, s: State)
    requires Init(s0) && Reaches(s0, events, s)
    ensures Once(s)
  {
    InitInv(s0);
    OnceRun(s0, events, s);
  }

  /** Placement `p` put call `c` into effect: the operation asked for, in a transaction of its directory. */
  ghost predicate Effects(txs: seq<Tx>, p: Placement, c: Call) {
    p.op == c.op && p.tx < |txs| && txs[p.tx].dir == c.dir
  }

  /**
    Exactly once: a call that returned was merged into one transaction of its directory and no other, with
    the operation it asked for; that transaction is the outcome of precisely the operations merged into it,
    and whatever record was written of it contains them all.
   */
  lemma ExactlyOnceJournalled(s0: State, events: seq<Event>, s: State, c: nat)
    requires Init(s0) && Reaches(s0, events, s) && c in s.seen.returned
    ensures c < |s.seen.calls| && exists k :: 0 <= k < |s.seen.placed| && s.seen.placed[k].id == c
    ensures var placed := s.seen.placed;
      forall j, k :: 0 <= j < |placed| && 0 <= k < |placed| && placed[j].id == c == placed[k].id ==> j == k
    ensures var placed := s.seen.placed;
      forall k :: 0 <= k < |placed| && placed[k].id == c ==>
        Effects(s.txs, placed[k], s.seen.calls[c]) && MadeOf(s.txs[placed[k].tx], OpsIn(placed, placed[k].tx))
    ensures forall r :: 0 <= r < |s.seen.records| ==>
      MadeOf(s.seen.records[r].content, OpsIn(s.seen.placed, s.seen.records[r].tx))
  {
    OnceReached(s0, events, s);
    OnceMeans(s.txs, s.seen.calls, s.threads, s.seen.placed, s.seen.returned, c);
    forall r | 0 <= r < |s.seen.records|
      ensures MadeOf(s.seen.records[r].content, OpsIn(s.seen.placed, s.seen.records[r].tx))
    {
      RecordedWell(s.txs, s.seen.placed, s.seen.records, r);
    }
  }

  lemma OnceMeans(
      txs: seq<Tx>, calls: seq<Call>, threads: map<nat, Pc>, placed: seq<Placement>, returned: set<nat>, c: nat)
    requires CallsOk(calls, threads, placed, returned) && AimOk(txs, calls, placed) && ContentOk(txs, placed)
    requires c in returned
    ensures c < |calls| && exists k :: 0 <= k < |placed| && placed[k].id == c
    ensures forall j, k :: 0 <= j < |placed| && 0 <= k < |placed| && placed[j].id == c == placed[k].id ==> j == k
    ensures forall k :: 0 <= k < |placed| && placed[k].id == c ==>
      Effects(txs, placed[k], calls[c]) && MadeOf(txs[placed[k].tx], OpsIn(placed, placed[k].tx))
  {
    var k :| 0 <= k < |placed| && placed[k].id == c;
    forall k | 0 <= k < |placed| && placed[k].id == c
      ensures Effects(txs, placed[k], calls[c]) && MadeOf(txs[placed[k].tx], OpsIn(placed, placed[k].tx))
    {
      PlacedWell(txs, calls, threads, placed, returned, k);
    }
  }

  lemma PlacedWell(
      txs: seq<Tx>, calls: seq<Call>, threads: map<nat, Pc>, placed: seq<Placement>, returned: set<nat>, k: nat)
    requires CallsOk(calls, threads, placed, returned) && AimOk(txs, calls, placed) && ContentOk(txs, placed)
    requires k < |placed|
    ensures placed[k].id < |calls| && Effects(txs, placed[k], calls[placed[k].id])
    ensures MadeOf(txs[placed[k].tx], OpsIn(placed, placed[k].tx))
  {
    assert InDir(txs, calls, placed[k]);
  }

  lemma RecordedWell(txs: seq<Tx>, placed: seq<Placement>, records: seq<Record>, r: nat)
    requires ContentOk(txs, placed) && RecordsOk(txs, records) && r < |records|
    ensures MadeOf(records[r].content, OpsIn(placed, records[r].tx))
  {
  }

  /**
    The same in runs: a call that is about to merge throws from the `f_inodes` branch exactly when the
    transaction is open, its entry branch lets the call pass, and the call clashes with the last operation on
    the same file that was merged into this transaction.
   */
  lemma ThrowsInRuns(s0: State, events: seq<Event>, s: State, t: nat)
    requires Init(s0) && Reaches(s0, events, s) && CanApply(s, t)
    ensures var tx, op := s.txs[s.threads[t].tx], s.threads[t].call.op;
      Merged(tx, op).outcome == InodeError <==>
        !tx.committed && MergeEntries(tx.dentries, op).Some? && Clashes(op, OpsIn(s.seen.placed, s.threads[t].tx))
  {
    OnceReached(s0, events, s);
    ThrowsIn(s.txs[s.threads[t].tx], s.threads[t].call.op, OpsIn(s.seen.placed, s.threads[t].tx));
  }

  lemma ThrowsIn(tx: Tx, op: Op, ops: seq<Op>)
    requires MadeOf(tx, ops)
    ensures Merged(tx, op).outcome == InodeError <==>
      !tx.committed && MergeEntries(tx.dentries, op).Some? && Clashes(op, ops)
  {
    ThrowsExactly(tx.dir, ops, op);
    assert !tx.committed ==> tx.(committed := false) == tx;
  }

  /** No transaction changes once its committed flag is set. */
  lemma CommittedNeverChanges(s: State, e: Event, t: nat)
    requires Shape(s) && Enabled(s, e) && t < |s.txs| && s.txs[t].committed
    ensures t < |Do(s, e).txs| && Do(s, e).txs[t] == s.txs[t]
  {
    match e {
      case Insert(_) =>
      case Apply(u) => LandedNotThere(s, u, Merged(s.txs[s.threads[u].tx], s.threads[u].call.op), t);
      case Freeze(d) => assert !s.txs[s.swapped[d]].committed;
      case ReplaceMap =>
      case Issue =>
      case _ => MovesOnly(s, e);
    }
  }

  /** A merge that took effect found its transaction open. */
  lemma LandedNotThere(s: State, u: nat, m: Merge, t: nat)
    requires CanApply(s, u) && t < |s.txs| && s.txs[t].committed
    requires s.txs[s.threads[u].tx].committed ==> !m.outcome.Effective()
    ensures t < |Landed(s, u, m).txs| && Landed(s, u, m).txs[t] == s.txs[t]
  {
  }

  // ---- A commit that comes too early ----

  lemma ReachesThen(s: State, e: Event, s1: State, es: seq<Event>, s2: State)
    requires Enabled(s, e) && s1 == Do(s, e) && Reaches(s1, es, s2)
    ensures Reaches(s, [e] + es, s2)
  {
    assert ([e] + es)[1..] == es;
  }

  /** mkself takes a fresh transaction, and the commit thread swaps the table before mkself merges into it. */
  lemma Swapped(s0: State, d: Ino, i: Inode, es: seq<Event>, s: State)
    requires Init(s0)
    requires var c := Call(0, d, MkSelf(i));
      Reaches(
        s0.(threads := map[0 := Holding(c, 0)], seen := s0.seen.(calls := [c]), txs := [NewTx(d)],
            swapped := map[d := 0]),
        es, s)
    ensures Reaches(s0, [Begin(0, d, MkSelf(i))] + ([Find(0)] + ([Insert(0)] + ([ReplaceMap] + es))), s)
  {
    var c := Call(0, d, MkSelf(i));
    var s1 := s0.(threads := map[0 := Looking(c)], seen := s0.seen.(calls := [c]));
    var s2 := s1.(threads := map[0 := Missed(c)]);
    var s3 := s2.(threads := map[0 := Holding(c, 0)], txs := [NewTx(d)], table := map[d := 0]);
    ReachesThen(s3, ReplaceMap, s3.(table := map[], swapped := map[d := 0]), es, s);
    BeganAndMissed(s0, c, s1, s2);
    Inserted(s2, c, s3);
    ReachesThen(s2, Insert(0), s3, [ReplaceMap] + es, s);
    ReachesThen(s1, Find(0), s2, [Insert(0)] + ([ReplaceMap] + es), s);
    ReachesThen(s0, Begin(0, d, MkSelf(i)), s1, [Find(0)] + ([Insert(0)] + ([ReplaceMap] + es)), s);
  }

  lemma BeganAndMissed(s0: State, c: Call, s1: State, s2: State)
    requires Init(s0) && c.id == 0
    requires s1 == s0.(threads := map[0 := Looking(c)], seen := s0.seen.(calls := [c]))
    requires s2 == s1.(threads := map[0 := Missed(c)])
    ensures CanBegin(s0, 0, c.dir, c.op) && DoBegin(s0, 0, c.dir, c.op) == s1
    ensures CanFind(s1, 0) && DoFind(s1, 0) == s2
  {
  }

  lemma Inserted(s: State, c: Call, s': State)
    requires s.threads == map[0 := Missed(c)] && s.txs == [] && s.table == map[]
    requires s' == s.(threads := map[0 := Holding(c, 0)], txs := [NewTx(c.dir)], table := map[c.dir := 0])
    ensures CanInsert(s, 0) && DoInsert(s, 0) == s'
  {
  }

  /** The commit thread commits the empty transaction. */
  lemma Doomed(s0: State, d: Ino, i: Inode) returns (events: seq<Event>, s: State)
    requires Init(s0) && d !in s0.base
    ensures Reaches(s0, events, s) && LegalRun(Lookup(s0.base, d), History(s, d)) && d in s.seen.stray
    ensures Replayed(s, d) == Corrupt != Fold(Lookup(s0.base, d), History(s, d))
  {
    var c := Call(0, d, MkSelf(i));
    var s4 := s0.(
      threads := map[0 := Holding(c, 0)], seen := s0.seen.(calls := [c]), txs := [NewTx(d)], swapped := map[d := 0]);
    assert Issued(s4.txs, s4.queues, s4.workers, d) == [];
    s := s4.(txs := [NewTx(d).(committed := true)], commit := Frozen(d), seen := s4.seen.(stray := {d}));
    assert s == DoFreeze(s4, d);
    assert Reaches(s, [], s);
    ReachesThen(s4, Freeze(d), s, [], s);
    Swapped(s0, d, i, [Freeze(d)] + [], s);
    events := [Begin(0, d, MkSelf(i))] + ([Find(0)] + ([Insert(0)] + ([ReplaceMap] + ([Freeze(d)] + []))));
    StorePlusPendingIsHistory(s0, events, s, d);
  }
}
