/** What becomes of every call: it goes on until it is merged or throws, and nothing else ends it. */
module CallFates {
  import opened Types
  import opened Transactions
  import opened Coalescing
  import opened Deltas
  import opened Pipeline
  import opened PipelineProof
  import opened ThreadSteps
  import opened JournalTheorems
  import opened ExactlyOnce

  /** Some thread is still carrying call `c` out. */
  ghost predicate UnderWay(threads: map<nat, Pc>, c: nat) { exists t :: t in threads && threads[t].call.id == c }

  /** Call `c` changed a transaction. */
  ghost predicate IsPlaced(placed: seq<Placement>, c: nat) { exists k :: 0 <= k < |placed| && placed[k].id == c }

  ghost predicate OneFate(threads: map<nat, Pc>, placed: seq<Placement>, rejected: set<nat>, c: nat) {
    && (UnderWay(threads, c) || IsPlaced(placed, c) || c in rejected)
    && !(UnderWay(threads, c) && IsPlaced(placed, c))
    && !(c in rejected && (UnderWay(threads, c) || IsPlaced(placed, c)))
  }

  ghost predicate FatesOk(n: nat, threads: map<nat, Pc>, placed: seq<Placement>, rejected: set<nat>) {
    && (forall c: nat :: c < n ==> OneFate(threads, placed, rejected, c))
    && (forall c :: c in rejected ==> c < n)
  }

  ghost predicate Fated(s: State) { FatesOk(|s.seen.calls|, s.threads, s.seen.placed, s.seen.rejected) }

  // ---- How the parts move ----

  lemma Moved(n: nat, threads: map<nat, Pc>, threads': map<nat, Pc>, placed: seq<Placement>, rejected: set<nat>)
    requires FatesOk(n, threads, placed, rejected)
    requires threads'.Keys == threads.Keys && forall t :: t in threads ==> threads'[t].call == threads[t].call
    ensures FatesOk(n, threads', placed, rejected)
  {
    forall c: nat | c < n ensures OneFate(threads', placed, rejected, c) {
      assert OneFate(threads, placed, rejected, c);
      assert UnderWay(threads', c) <==> UnderWay(threads, c);
    }
  }

  lemma Begun(
      calls: seq<Call>, threads: map<nat, Pc>, placed: seq<Placement>, returned: set<nat>, rejected: set<nat>,
      t: nat, c: Call)
    requires CallsOk(calls, threads, placed, returned) && FatesOk(|calls|, threads, placed, rejected)
    requires t !in threads && c.id == |calls|
    ensures FatesOk(|calls| + 1, threads[t := Looking(c)], placed, rejected)
  {
    var threads' := threads[t := Looking(c)];
    forall x: nat | x < |calls| + 1 ensures OneFate(threads', placed, rejected, x) {
      assert threads'[t].call.id == |calls|;
      if x < |calls| {
        assert OneFate(threads, placed, rejected, x);
        StillUnderWay(threads, t, c, x);
      }
    }
  }

  lemma StillUnderWay(threads: map<nat, Pc>, t: nat, c: Call, x: nat)
    requires t !in threads && x != c.id
    ensures UnderWay(threads[t := Looking(c)], x) <==> UnderWay(threads, x)
  {
    if UnderWay(threads, x) {
      var u :| u in threads && threads[u].call.id == x;
      assert threads[t := Looking(c)][u].call.id == x;
    }
  }

  /** Thread `t` leaves: its call is no longer under way, every other call is where it was. */
  lemma Gone(calls: seq<Call>, threads: map<nat, Pc>, placed: seq<Placement>, returned: set<nat>, t: nat, c: nat)
    requires CallsOk(calls, threads, placed, returned) && t in threads
    ensures UnderWay(threads - {t}, c) <==> UnderWay(threads, c) && c != threads[t].call.id
  {
    if UnderWay(threads, c) && c != threads[t].call.id {
      var u :| u in threads && threads[u].call.id == c;
      assert (threads - {t})[u].call.id == c;
    }
  }

  lemma OneMore(placed: seq<Placement>, p: Placement, c: nat)
    ensures IsPlaced(placed + [p], c) <==> IsPlaced(placed, c) || c == p.id
  {
    var placed' := placed + [p];
    assert placed'[|placed|] == p;
    if IsPlaced(placed, c) {
      var k :| 0 <= k < |placed| && placed[k].id == c;
      assert placed'[k].id == c;
    }
  }

  lemma LeftPlaced(
      calls: seq<Call>, threads: map<nat, Pc>, placed: seq<Placement>, returned: set<nat>, rejected: set<nat>,
      t: nat, p: Placement)
    requires CallsOk(calls, threads, placed, returned) && FatesOk(|calls|, threads, placed, rejected)
    requires t in threads && p.id == threads[t].call.id
    ensures FatesOk(|calls|, threads - {t}, placed + [p], rejected)
  {
    assert UnderWay(threads, p.id);
    forall c: nat | c < |calls| ensures OneFate(threads - {t}, placed + [p], rejected, c) {
      assert OneFate(threads, placed, rejected, c);
      Gone(calls, threads, placed, returned, t, c);
      OneMore(placed, p, c);
    }
  }

  lemma LeftRejected(
      calls: seq<Call>, threads: map<nat, Pc>, placed: seq<Placement>, returned: set<nat>, rejected: set<nat>,
      t: nat)
    requires CallsOk(calls, threads, placed, returned) && FatesOk(|calls|, threads, placed, rejected)
    requires t in threads
    ensures FatesOk(|calls|, threads - {t}, placed, rejected + {threads[t].call.id})
  {
    assert Made(calls, threads[t].call) && UnderWay(threads, threads[t].call.id);
    forall c: nat | c < |calls| ensures OneFate(threads - {t}, placed, rejected + {threads[t].call.id}, c) {
      assert OneFate(threads, placed, rejected, c);
      Gone(calls, threads, placed, returned, t, c);
    }
  }

  // ---- Steps ----

  /**
    What trying a call on its transaction does, for every state: a committed transaction leaves everything as
    it was and sends the thread back to look the table up, with the same call; otherwise the thread ends, and
    the call changed the transaction and is placed there, or threw before it changed anything.
   */
  lemma Tried(s: State, t: nat)
    requires CanApply(s, t)
    ensures var id, c, s' := s.threads[t].tx, s.threads[t].call, Do(s, Apply(t));
      if s.txs[id].committed then s' == s.(threads := s.threads[t := Looking(c)])
      else if MergeEntries(s.txs[id].dentries, c.op).None? then
        s' == s.(threads := s.threads - {t}, seen := s.seen.(rejected := s.seen.rejected + {c.id}))
      else
        && s'.threads == s.threads - {t} && |s'.txs| == |s.txs| && s'.seen.rejected == s.seen.rejected
        && s'.seen.placed == s.seen.placed + [Placement(c.id, c.op, id)] && s'.seen.calls == s.seen.calls
  {
    var tx, op := s.txs[s.threads[t].tx], s.threads[t].call.op;
    assert Merged(tx, op).outcome.EntryError? <==> !tx.committed && MergeEntries(tx.dentries, op).None?;
  }

  /** The other steps: a call begins, and threads move with their calls; nothing else concerns any call. */
  lemma OnlyBegins(s: State, e: Event)
    requires Enabled(s, e) && !e.Apply?
    ensures var s' := Do(s, e);
      && s'.seen.placed == s.seen.placed && s'.seen.returned == s.seen.returned && s'.seen.rejected == s.seen.rejected
      && (match e
          case Begin(t, d, op) =>
            var c := Call(|s.seen.calls|, d, op);
            t !in s.threads && s'.seen.calls == s.seen.calls + [c] && s'.threads == s.threads[t := Looking(c)]
          case _ =>
            && s'.seen.calls == s.seen.calls && s'.threads.Keys == s.threads.Keys
            && forall t :: t in s.threads && t in s'.threads ==> s'.threads[t].call == s.threads[t].call)
  {
  }

  /**
    A thread ends only by a merge on an open transaction, with its call placed in that transaction or rejected
    because of the entries; a call that met a committed transaction is still there, and is the same call.
   */
  lemma CallsGoOn(s: State, e: Event, t: nat)
    requires Enabled(s, e) && t in s.threads
    ensures t in Do(s, e).threads ==> Do(s, e).threads[t].call == s.threads[t].call
    ensures t !in Do(s, e).threads ==>
      var c, s' := s.threads[t].call, Do(s, e);
      && e == Apply(t) && CanApply(s, t) && !s.txs[s.threads[t].tx].committed
      && (|| s'.seen.placed == s.seen.placed + [Placement(c.id, c.op, s.threads[t].tx)]
          || (MergeEntries(s.txs[s.threads[t].tx].dentries, c.op).None? && c.id in s'.seen.rejected))
    ensures e == Apply(t) && s.txs[s.threads[t].tx].committed ==>
      t in Do(s, e).threads && Do(s, e).threads[t] == Looking(s.threads[t].call)
  {
    if e.Apply? { Tried(s, e.t); } else { OnlyBegins(s, e); }
  }

  lemma FatedTry(s: State, t: nat)
    requires Once(s) && Fated(s) && CanApply(s, t)
    ensures Fated(Do(s, Apply(t)))
  {
    Tried(s, t);
    FatedAfter(s, s.seen, t, s.threads[t].call, s.threads[t].tx, Do(s, Apply(t)));
  }

  /** The three ends of a try. */
  lemma FatedAfter(s: State, seen: Seen, t: nat, c: Call, id: nat, s': State)
    requires CallsOk(seen.calls, s.threads, seen.placed, seen.returned) && Fated(s) && seen == s.seen
    requires t in s.threads && c == s.threads[t].call && s'.seen.calls == seen.calls
    requires || (s'.threads == s.threads[t := Looking(c)] && s'.seen == seen)
             || (s'.threads == s.threads - {t} && s'.seen == seen.(rejected := seen.rejected + {c.id}))
             || (s'.threads == s.threads - {t} && s'.seen.rejected == seen.rejected
                 && s'.seen.placed == seen.placed + [Placement(c.id, c.op, id)])
    ensures Fated(s')
  {
    if s'.threads == s.threads - {t} {
      if s'.seen.rejected == seen.rejected && |s'.seen.placed| > |seen.placed| {
        LeftPlaced(
          seen.calls, s.threads, seen.placed, seen.returned, seen.rejected, t, Placement(c.id, c.op, id));
      } else {
        LeftRejected(seen.calls, s.threads, seen.placed, seen.returned, seen.rejected, t);
      }
    } else {
      Moved(|seen.calls|, s.threads, s'.threads, seen.placed, seen.rejected);
    }
  }

  lemma FatedStep(s: State, e: Event)
    requires Once(s) && Fated(s) && Enabled(s, e)
    ensures Fated(Do(s, e))
  {
    if e.Apply? {
      FatedTry(s, e.t);
    } else {
      OnlyBegins(s, e);
      FatedMove(s, e, Do(s, e));
    }
  }

  lemma FatedMove(s: State, e: Event, s': State)
    requires CallsOk(s.seen.calls, s.threads, s.seen.placed, s.seen.returned) && Fated(s)
    requires s'.seen.placed == s.seen.placed && s'.seen.rejected == s.seen.rejected
    requires match e
      case Begin(t, d, op) =>
        var c := Call(|s.seen.calls|, d, op);
        t !in s.threads && s'.seen.calls == s.seen.calls + [c] && s'.threads == s.threads[t := Looking(c)]
      case _ =>
        && s'.seen.calls == s.seen.calls && s'.threads.Keys == s.threads.Keys
        && forall t :: t in s.threads && t in s'.threads ==> s'.threads[t].call == s.threads[t].call
    ensures Fated(s')
  {
    var calls, seen := s.seen.calls, s.seen;
    if e.Begin? {
      Begun(calls, s.threads, seen.placed, seen.returned, seen.rejected, e.t, Call(|calls|, e.dir, e.op));
    } else {
      Moved(|calls|, s.threads, s'.threads, seen.placed, seen.rejected);
    }
  }

  // ---- Runs ----

  /** A merge that threw after its mark did not return; any other merge did. */
  ghost predicate ReturnsOk(placed: seq<Placement>, returned: set<nat>) {
    forall k: nat :: k < |placed| ==> Returned(placed, returned, k)
  }

  ghost predicate Returned(placed: seq<Placement>, returned: set<nat>, k: nat)
    requires k < |placed|
  {
    placed[k].id in returned <==> !Clashes(placed[k].op, OpsIn(placed[..k], placed[k].tx))
  }

  lemma ReturnsLonger(placed: seq<Placement>, returned: set<nat>, p: Placement, done: set<nat>)
    requires ReturnsOk(placed, returned) && !IsPlaced(placed, p.id) && p.id !in returned && done <= {p.id}
    requires done != {} <==> !Clashes(p.op, OpsIn(placed, p.tx))
    ensures ReturnsOk(placed + [p], returned + done)
  {
    var placed' := placed + [p];
    forall k: nat | k < |placed'| ensures Returned(placed', returned + done, k) {
      if k < |placed| {
        assert placed'[..k] == placed[..k] && Returned(placed, returned, k);
      } else {
        assert placed'[..k] == placed;
        assert p.id in done <==> done != {};
      }
    }
  }

  /** How the call of thread `t` ends, told from the operations that reached its transaction. */
  lemma Ending(tx: Tx, ops: seq<Op>, op: Op)
    requires MadeOf(tx, ops)
    ensures var end := Merged(tx, op).outcome;
      && (end == Refused <==> tx.committed)
      && (end == EntryError <==> !tx.committed && Collides(op, ops))
      && (end == InodeError <==> !tx.committed && !Collides(op, ops) && Clashes(op, ops))
      && (end == Accepted <==> !tx.committed && !Collides(op, ops) && !Clashes(op, ops))
  {
    EndsExactly(tx.dir, ops, tx.committed, op);
    assert After(tx.dir, ops, tx.committed) == tx;
  }

  lemma ReturnsTry(s: State, t: nat, m: Merge)
    requires Once(s) && CanApply(s, t) && ReturnsOk(s.seen.placed, s.seen.returned)
    requires m == Merged(s.txs[s.threads[t].tx], s.threads[t].call.op)
    ensures ReturnsOk(Landed(s, t, m).seen.placed, Landed(s, t, m).seen.returned)
  {
    var id, c := s.threads[t].tx, s.threads[t].call;
    Ending(s.txs[id], OpsIn(s.seen.placed, id), c.op);
    var done := if m.outcome.Accepted? then {c.id} else {};
    NotYet(s.seen.calls, s.threads, s.seen.placed, s.seen.returned, t);
    LandedSeen(s, t, m, done);
    if m.outcome.Effective() {
      ReturnsLonger(s.seen.placed, s.seen.returned, Placement(c.id, c.op, id), done);
    }
  }

  lemma NotYet(calls: seq<Call>, threads: map<nat, Pc>, placed: seq<Placement>, returned: set<nat>, t: nat)
    requires CallsOk(calls, threads, placed, returned) && t in threads
    ensures !IsPlaced(placed, threads[t].call.id) && threads[t].call.id !in returned
  {
  }

  lemma LandedSeen(s: State, t: nat, m: Merge, done: set<nat>)
    requires CanApply(s, t) && done == if m.outcome.Accepted? then {s.threads[t].call.id} else {}
    ensures var c, seen := s.threads[t].call, Landed(s, t, m).seen;
      if m.outcome.Effective() then
        && seen.placed == s.seen.placed + [Placement(c.id, c.op, s.threads[t].tx)]
        && seen.returned == s.seen.returned + done
      else seen.placed == s.seen.placed && seen.returned == s.seen.returned
  {
  }

  lemma ReturnsStep(s: State, e: Event)
    requires Once(s) && Enabled(s, e) && ReturnsOk(s.seen.placed, s.seen.returned)
    ensures ReturnsOk(Do(s, e).seen.placed, Do(s, e).seen.returned)
  {
    match e {
      case Apply(t) => ReturnsTry(s, t, Merged(s.txs[s.threads[t].tx], s.threads[t].call.op));
      case _ => OnlyBegins(s, e);
    }
  }

  lemma {:induction false} FatesInRuns(s0: State, events: seq<Event>, s: State)
    requires Inv(s0) && Once(s0) && Fated(s0) && ReturnsOk(s0.seen.placed, s0.seen.returned)
    requires Reaches(s0, events, s)
    ensures Once(s) && Fated(s) && ReturnsOk(s.seen.placed, s.seen.returned)
    decreases |events|
  {
    if events != [] {
      StepKeeps(s0, events[0]);
      OnceKeeps(s0, events[0]);
      FatedStep(s0, events[0]);
      ReturnsStep(s0, events[0]);
      FatesInRuns(Do(s0, events[0]), events[1..], s);
    }
  }

  lemma FatesReached(s0: State, events: seq<Event>, s: State)
    requires Init(s0) && Reaches(s0, events, s)
    ensures Once(s) && Fated(s) && ReturnsOk(s.seen.placed, s.seen.returned)
  {
    InitInv(s0);
    FatesInRuns(s0, events, s);
  }

  /**
    No call is lost and none has two fates: in every reachable state a call that was made is under way in a
    thread, or changed a transaction, or threw before it changed anything, and only one of these.
   */
  lemma EveryCallHasOneFate(s0: State, events: seq<Event>, s: State, c: nat)
    requires Init(s0) && Reaches(s0, events, s) && c < |s.seen.calls|
    ensures UnderWay(s.threads, c) || IsPlaced(s.seen.placed, c) || c in s.seen.rejected
    ensures !(UnderWay(s.threads, c) && IsPlaced(s.seen.placed, c))
    ensures !(c in s.seen.rejected && (UnderWay(s.threads, c) || IsPlaced(s.seen.placed, c)))
  {
    FatesReached(s0, events, s);
    assert OneFate(s.threads, s.seen.placed, s.seen.rejected, c);
  }

  /**
    Which placed calls returned 0: exactly those that did not clash with the last operation on the same file
    merged into the same transaction before them.
   */
  lemma ReturnedExactly(s0: State, events: seq<Event>, s: State, k: nat)
    requires Init(s0) && Reaches(s0, events, s) && k < |s.seen.placed|
    ensures var p := s.seen.placed[k];
      p.id in s.seen.returned <==> !Clashes(p.op, OpsIn(s.seen.placed[..k], p.tx))
  {
    FatesReached(s0, events, s);
    assert Returned(s.seen.placed, s.seen.returned, k);
  }

  /** How the call of a thread that holds a transaction is about to end, in every reachable state. */
  lemma EndsInRuns(s0: State, events: seq<Event>, s: State, t: nat)
    requires Init(s0) && Reaches(s0, events, s) && CanApply(s, t)
    ensures var tx, op, ops := s.txs[s.threads[t].tx], s.threads[t].call.op, OpsIn(s.seen.placed, s.threads[t].tx);
      var end := Merged(tx, op).outcome;
      && (end == Refused <==> tx.committed)
      && (end == EntryError <==> !tx.committed && Collides(op, ops))
      && (end == InodeError <==> !tx.committed && !Collides(op, ops) && Clashes(op, ops))
      && (end == Accepted <==> !tx.committed && !Collides(op, ops) && !Clashes(op, ops))
  {
    OnceReached(s0, events, s);
    Ending(s.txs[s.threads[t].tx], OpsIn(s.seen.placed, s.threads[t].tx), s.threads[t].call.op);
  }

  // ---- The loop ends ----

  /** Thread `t` holding an open transaction leaves with its next step. */
  lemma LandsNow(s: State, t: nat) returns (events: seq<Event>, s': State)
    requires CanApply(s, t) && !s.txs[s.threads[t].tx].committed
    ensures Reaches(s, events, s') && t !in s'.threads && |events| == 1
  {
    events, s' := [Apply(t)], Do(s, Apply(t));
    Tried(s, t);
    assert Reaches(s', [], s');
    ReachesThen(s, Apply(t), s', [], s');
    assert [Apply(t)] + [] == events;
  }

  /** Thread `t` between its two looks at the table. */
  lemma LandsMissed(s: State, t: nat) returns (events: seq<Event>, s': State)
    requires Inv(s) && t in s.threads && s.threads[t].Missed?
    ensures Reaches(s, events, s') && t !in s'.threads && |events| == 2
  {
    var s1 := DoInsert(s, t);
    StepKeeps(s, Insert(t));
    var rest;
    rest, s' := LandsNow(s1, t);
    ReachesThen(s, Insert(t), s1, rest, s');
    events := [Insert(t)] + rest;
  }

  lemma LandsFromTable(s: State, t: nat) returns (events: seq<Event>, s': State)
    requires Inv(s) && t in s.threads && s.threads[t].Looking?
    ensures Reaches(s, events, s') && t !in s'.threads && |events| <= 3
  {
    var s1 := DoFind(s, t);
    StepKeeps(s, Find(t));
    if s.threads[t].call.dir in s.table {
      events, s' := LandsNow(s1, t);
    } else {
      events, s' := LandsMissed(s1, t);
    }
    ReachesThen(s, Find(t), s1, events, s');
    events := [Find(t)] + events;
  }

  /** Thread `t` holding a committed transaction goes round the loop. */
  lemma LandsLater(s: State, t: nat) returns (events: seq<Event>, s': State)
    requires Inv(s) && CanApply(s, t) && s.txs[s.threads[t].tx].committed
    ensures Reaches(s, events, s') && t !in s'.threads && |events| <= 4
  {
    var s1 := Do(s, Apply(t));
    Tried(s, t);
    StepKeeps(s, Apply(t));
    var rest;
    rest, s' := LandsFromTable(s1, t);
    ReachesThen(s, Apply(t), s1, rest, s');
    events := [Apply(t)] + rest;
  }

  /**
    A call that runs alone ends within four steps, wherever its thread stands: a committed transaction costs it
    one more turn of the loop, and that turn finds an open one.
   */
  lemma LoopEnds(s: State, t: nat) returns (events: seq<Event>, s': State)
    requires Inv(s) && t in s.threads
    ensures Reaches(s, events, s') && t !in s'.threads && |events| <= 4
  {
    match s.threads[t] {
      case Looking(_) => events, s' := LandsFromTable(s, t);
      case Missed(_) => events, s' := LandsMissed(s, t);
      case Holding(_, id) =>
        if s.txs[id].committed {
          events, s' := LandsLater(s, t);
        } else {
          events, s' := LandsNow(s, t);
        }
    }
  }
}
