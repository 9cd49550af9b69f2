/**
  LOCAL tenures: the in-memory tables of the directories a client leads, next to its journal
  (client/in_memory/dentry_table.cpp, client/in_memory/directory_table.cpp, client/fs_ops/local_ops.cpp).
  Tables come and go at any moment, while other directories have pending work. A file system operation changes
  the table and calls the journal while it holds the directory's mutex; the two go together in one step here,
  since nobody else sees the table in between.
 */
module Tenure {
  import opened Types
  import opened Transactions
  import opened Coalescing
  import P = Pipeline
  import opened PipelineProof
  import opened EntryMarks
  import ThreadSteps
  import J = JournalTheorems

  /** A dentry_table: child_inodes, each inode by its number, and the child list of `dentries`. */
  datatype Table = Table(inodes: map<Name, Ino>, list: Children)

  /** create_child_inode: a name already there is left alone (the callers ignore the -1). */
  function WithChild(t: Table, n: Name, i: Ino): Table {
    if n in t.inodes then t else Table(t.inodes[n := i], t.list[n := i])
  }

  /** delete_child_inode. */
  function WithoutChild(t: Table, n: Name): Table {
    if n !in t.inodes then t else Table(t.inodes - {n}, Without(t.list, n))
  }

  /** pull_child_metadata, and the empty table of a new directory. */
  function Pulled(c: Children): Table { Table(c, c) }

  /** The change of the table that goes with a journal call. */
  function Changed(t: Table, op: Op): Table {
    match op
    case MkDir(_, n, i) => WithChild(t, n, i)
    case MkReg(_, n, f) => WithChild(t, n, InoOf(f))
    case RmDir(_, n, _) => WithoutChild(t, n)
    case RmReg(_, n, _) => WithoutChild(t, n)
    case _ => t
  }

  predicate TableOp(op: Op) { op.MkDir? || op.MkReg? || op.RmDir? || op.RmReg? }

  /** `pulled` only observes: the tables that were read from the store. */
  datatype State = State(p: P.State, tables: map<Ino, Table>, pulled: set<Ino>)

  /** The client starts on any store, with no table. */
  predicate Init(s: State) { P.Init(s.p) && s.tables == map[] && s.pulled == {} }

  /**
    A table is pulled from the store (lease_dentry_table), or given empty to a directory this client has just
    made (lease_dentry_table_mkdir); it is released when the lease expires or the directory is removed. While
    a directory is not led here, another client may leave anything in the store for it.
   */
  datatype Event =
    | Local(t: nat, d: Ino, op: Op)
    | Other(e: P.Event)
    | Pull(d: Ino)
    | Adopt(d: Ino)
    | Release(d: Ino)
    | Elsewhere(d: Ino, dir: Dir)

  /** No transaction of `d` is pending, and no call that changes its entries is under way. */
  predicate Idle(p: P.State, d: Ino) {
    P.Issued(p.txs, p.queues, p.workers, d) == [] && d !in p.swapped && d !in p.table && P.MutexFree(p, d)
  }

  /** The last thing journalled for `d` was its creation. */
  predicate JustMade(p: P.State, d: Ino) {
    P.History(p, d) != [] && P.History(p, d)[|P.History(p, d)| - 1].MkSelf? && P.MutexFree(p, d)
  }

  /** Structural calls on a led directory come with their table change; everything else is free. */
  predicate Enabled(s: State, e: Event) {
    match e
    case Local(t, d, op) => d in s.tables && TableOp(op) && P.CanBegin(s.p, t, d, op)
    case Other(e) => P.Enabled(s.p, e) && (e.Begin? && e.op.Structural() ==> e.dir !in s.tables)
    case Pull(d) => d !in s.tables && d in s.p.store && Idle(s.p, d)
    case Adopt(d) => d !in s.tables && JustMade(s.p, d)
    case Release(_) => true
    case Elsewhere(d, dir) => d !in s.tables && Idle(s.p, d) && dir != Corrupt
  }

  function Put(m: map<Ino, Children>, d: Ino, dir: Dir): map<Ino, Children> {
    if dir.Present? then m[d := dir.children] else m - {d}
  }

  /** The journal starts afresh on what another client left. */
  function Rebased(p: P.State, d: Ino, dir: Dir): P.State {
    p.(store := Put(p.store, d, dir), base := Put(p.base, d, dir),
       seen := p.seen.(history := p.seen.history - {d}, stray := p.seen.stray - {d}))
  }

  function Do(s: State, e: Event): State
    requires Enabled(s, e)
  {
    match e
    case Local(t, d, op) => s.(p := P.DoBegin(s.p, t, d, op), tables := s.tables[d := Changed(s.tables[d], op)])
    case Other(e) => s.(p := P.Do(s.p, e))
    case Pull(d) => s.(tables := s.tables[d := Pulled(s.p.store[d])], pulled := s.pulled + {d})
    case Adopt(d) => s.(tables := s.tables[d := Pulled(map[])], pulled := s.pulled - {d})
    case Release(d) => s.(tables := s.tables - {d}, pulled := s.pulled - {d})
    case Elsewhere(d, dir) => s.(p := Rebased(s.p, d, dir))
  }

  predicate Reaches(s0: State, events: seq<Event>, s: State)
    decreases |events|
  {
    if events == [] then s == s0
    else Enabled(s0, events[0]) && Reaches(Do(s0, events[0]), events[1..], s)
  }

  /** Only absent names are created and only present ones deleted. */
  predicate AllSensible(s0: State, events: seq<Event>)
    decreases |events|
  {
    events != [] && Enabled(s0, events[0]) ==>
      && (events[0].Local? ==> Sensible(events[0].op, s0.tables[events[0].d].inodes))
      && AllSensible(Do(s0, events[0]), events[1..])
  }

  // ---- What every step keeps ----

  /** The life cycle of `d` was kept. */
  ghost predicate Kept(p: P.State, d: Ino) { LegalRun(P.Based(p, d), P.History(p, d)) }

  ghost function Known(p: P.State, d: Ino): Dir { Fold(P.Based(p, d), P.History(p, d)) }

  /** The calls under way on a led directory are those that came with a table change. */
  ghost predicate OnlyTableOps(threads: map<nat, P.Pc>, d: Ino) {
    forall t :: StructuralOn(threads, t, d) ==> TableOp(threads[t].call.op)
  }

  /** The table is as far as the journal, or one call ahead of it while that call is under way. */
  ghost predicate InStep(threads: map<nat, P.Pc>, d: Ino, list: Children, h: Dir) {
    && h.Present?
    && (forall t :: StructuralOn(threads, t, d) ==>
          Sensible(threads[t].call.op, h.children) && Present(list) == ApplyOp(threads[t].call.op, h))
    && ((forall t :: !StructuralOn(threads, t, d)) ==> Present(list) == h)
  }

  ghost predicate TableOk(s: State, d: Ino) {
    d in s.tables ==>
      && s.tables[d].inodes == s.tables[d].list && OnlyTableOps(s.p.threads, d)
      && (Kept(s.p, d) ==> InStep(s.p.threads, d, s.tables[d].list, Known(s.p, d)))
  }

  /** An open transaction of `d` neither creates nor removes it. */
  ghost predicate Ordinary(txs: seq<Tx>, m: map<Ino, nat>, d: Ino) {
    d in m && m[d] < |txs| ==> txs[m[d]].status == Unchanged
  }

  /** A pulled table's directory exists throughout, so no commit of it is stray. */
  ghost predicate PulledOk(s: State, d: Ino) {
    d in s.pulled ==>
      && d in s.tables && Ordinary(s.p.txs, s.p.table, d) && Ordinary(s.p.txs, s.p.swapped, d)
      && (Kept(s.p, d) ==> d !in s.p.seen.stray)
  }

  ghost predicate Inv(s: State) {
    PipelineProof.Inv(s.p) && forall d :: MarksOk(s.p, d) && TableOk(s, d) && PulledOk(s, d)
  }

  lemma InitInv(s: State)
    requires Init(s)
    ensures Inv(s)
  {
    ThreadSteps.InitInv(s.p);
  }

  // ---- The table follows the journal ----

  /** Where the table and the list agree, the table follows the journal unless an existing name is created anew. */
  lemma TableFollowsJournal(t: Table, op: Op)
    requires t.inodes == t.list && TableOp(op)
    ensures Changed(t, op).inodes == Changed(t, op).list
    ensures Present(Changed(t, op).list) == ApplyOp(op, Present(t.list)) <==>
      match op
      case MkDir(_, n, i) => n !in t.inodes || t.inodes[n] == i
      case MkReg(_, n, f) => n !in t.inodes || t.inodes[n] == InoOf(f)
      case _ => true
  {
    match op {
      case MkDir(_, n, i) => assert n in t.list ==> t.list[n := i][n] == i;
      case MkReg(_, n, f) => assert n in t.list ==> t.list[n := InoOf(f)][n] == InoOf(f);
      case _ =>
    }
  }

  /** The structural calls under way on `d`, and those merged so far, are the same. */
  ghost predicate SameCalls(p: P.State, p': P.State, d: Ino) {
    && P.History(p', d) == P.History(p, d) && P.Based(p', d) == P.Based(p, d)
    && (forall u :: StructuralOn(p'.threads, u, d) <==> StructuralOn(p.threads, u, d))
    && (forall u :: StructuralOn(p.threads, u, d) ==> p'.threads[u].call == p.threads[u].call)
  }

  /** Only the begin and the merge of a structural call on `d` change them. */
  lemma QuietStep(p: P.State, e: P.Event, d: Ino)
    requires P.Enabled(p, e)
    requires e.Begin? ==> e.dir != d || !e.op.Structural()
    requires e.Apply? ==> !StructuralOn(p.threads, e.t, d)
    ensures SameCalls(p, P.Do(p, e), d)
  {
    match e {
      case Begin(t, c, op) => QuietBegin(p, t, c, op, d);
      case Find(t) => QuietFind(p, t, d);
      case Insert(t) => QuietInsert(p, t, d);
      case Apply(t) => QuietApply(p, t, Merged(p.txs[p.threads[t].tx], p.threads[t].call.op), d);
      case _ => NoThread(p, e);
    }
  }

  lemma QuietBegin(p: P.State, t: nat, c: Ino, op: Op, d: Ino)
    requires P.CanBegin(p, t, c, op) && (c != d || !op.Structural())
    ensures SameCalls(p, P.DoBegin(p, t, c, op), d)
  {
  }

  lemma QuietFind(p: P.State, t: nat, d: Ino)
    requires P.CanFind(p, t)
    ensures SameCalls(p, P.DoFind(p, t), d)
  {
  }

  lemma QuietInsert(p: P.State, t: nat, d: Ino)
    requires P.CanInsert(p, t)
    ensures SameCalls(p, P.DoInsert(p, t), d)
  {
  }

  lemma QuietApply(p: P.State, t: nat, m: Merge, d: Ino)
    requires P.CanApply(p, t) && !StructuralOn(p.threads, t, d)
    ensures SameCalls(p, P.Landed(p, t, m), d)
  {
    var p' := P.Landed(p, t, m);
    if m.outcome.Effective() {
      QuietThreads(p.threads, p'.threads, t, d);
    } else {
      assert p'.seen.history == p.seen.history;
      QuietThreads(p.threads, p'.threads, t, d);
    }
  }

  /** A thread without a structural call on `d` goes back to looking or ends. */
  lemma QuietThreads(threads: map<nat, P.Pc>, threads': map<nat, P.Pc>, t: nat, d: Ino)
    requires t in threads && !StructuralOn(threads, t, d)
    requires threads' == threads[t := P.Looking(threads[t].call)] || threads' == threads - {t}
    ensures forall u :: StructuralOn(threads', u, d) <==> StructuralOn(threads, u, d)
    ensures forall u :: StructuralOn(threads, u, d) ==> threads'[u].call == threads[u].call
  {
  }

  lemma Untouched(s: State, s': State, d: Ino)
    requires TableOk(s, d) && SameCalls(s.p, s'.p, d)
    requires d in s'.tables ==> d in s.tables && s'.tables[d] == s.tables[d]
    ensures TableOk(s', d)
  {
  }

  /** The table takes its change, and the call gets under way. */
  lemma GetAhead(s: State, s': State, t: nat, d: Ino, op: Op)
    requires TableOk(s, d) && Enabled(s, Local(t, d, op)) && Sensible(op, s.tables[d].inodes)
    requires s' == Do(s, Local(t, d, op))
    ensures TableOk(s', d)
  {
    TableFollowsJournal(s.tables[d], op);
    assert forall u :: !StructuralOn(s.p.threads, u, d);
    assert StructuralOn(s'.p.threads, t, d);
  }

  /** The call under way on `d` lands: the journal catches up with the table. */
  lemma LandedInStep(p: P.State, t: nat, m: Merge, d: Ino, b: Dir, list: Children)
    requires P.CanApply(p, t) && Serialised(p.threads) && StructuralOn(p.threads, t, d)
    requires !m.outcome.EntryError? && InStep(p.threads, d, list, Fold(b, P.History(p, d)))
    ensures var p' := P.Landed(p, t, m); InStep(p'.threads, d, list, Fold(b, P.History(p', d)))
  {
    var c, h, p' := p.threads[t].call, P.History(p, d), P.Landed(p, t, m);
    if m.outcome.Refused? {
      assert p'.threads == p.threads[t := P.Looking(c)] && p'.seen.history == p.seen.history;
      forall u ensures StructuralOn(p'.threads, u, d) <==> StructuralOn(p.threads, u, d) {}
    } else {
      assert p'.threads == p.threads - {t} && P.History(p', d) == h + [c.op];
      assert (h + [c.op])[..|h|] == h;
      forall u ensures !StructuralOn(p'.threads, u, d) {
        assert StructuralOn(p.threads, u, d) ==> u == t;
      }
    }
  }

  lemma LandedTableOps(p: P.State, t: nat, m: Merge, d: Ino)
    requires P.CanApply(p, t) && OnlyTableOps(p.threads, d)
    ensures OnlyTableOps(P.Landed(p, t, m).threads, d)
  {
    var threads' := P.Landed(p, t, m).threads;
    forall u | StructuralOn(threads', u, d) ensures TableOp(threads'[u].call.op) {
      assert StructuralOn(p.threads, u, d);
    }
  }

  /** A run that was legal up to here was legal before. */
  lemma LandedWasKept(p: P.State, t: nat, m: Merge, d: Ino)
    requires P.CanApply(p, t) && Kept(P.Landed(p, t, m), d)
    ensures Kept(p, d) && P.Based(P.Landed(p, t, m), d) == P.Based(p, d)
  {
    var c, h, h' := p.threads[t].call, P.History(p, d), P.History(P.Landed(p, t, m), d);
    if h' != h {
      assert h' == h + [c.op] && h'[..|h|] == h;
    }
  }

  lemma CatchUp(s: State, s': State, t: nat, d: Ino)
    requires PipelineProof.Inv(s.p) && MarksOk(s.p, d) && TableOk(s, d) && P.CanApply(s.p, t)
    requires s'.p == P.DoApply(s.p, t) && s'.tables == s.tables
    requires d in s.tables && StructuralOn(s.p.threads, t, d)
    ensures TableOk(s', d)
  {
    var m := Merged(s.p.txs[s.p.threads[t].tx], s.p.threads[t].call.op);
    LandedTableOps(s.p, t, m, d);
    if Kept(s'.p, d) {
      LandedWasKept(s.p, t, m, d);
      SensibleMerges(s.p, t);
      LandedInStep(s.p, t, m, d, P.Based(s.p, d), s.tables[d].list);
    }
  }

  // ---- Pulled tables ----

  /** What a directory that does not exist replays to through ordinary transactions is never a child list. */
  lemma NeverFromNothing(txs: seq<Tx>, table: map<Ino, nat>, swapped: map<Ino, nat>, d: Ino)
    requires Ordinary(txs, table, d) && Ordinary(txs, swapped, d)
    ensures !P.Through(txs, table, d, P.Through(txs, swapped, d, Absent)).Present?
  {
  }

  lemma FreezePulled(s: State, s': State, c: Ino, d: Ino)
    requires DirOk(s.p, d) && TableOk(s, d) && PulledOk(s, d)
    requires P.CanFreeze(s.p, c) && s' == s.(p := P.DoFreeze(s.p, c))
    ensures PulledOk(s', d)
  {
    if d in s.pulled && Kept(s.p, d) && c == d {
      assert Known(s.p, d).Present?;
      NeverFromNothing(s.p.txs, s.p.table, s.p.swapped, d);
    }
  }

  lemma ApplyPulled(s: State, s': State, t: nat, d: Ino)
    requires Shape(s.p) && TableOk(s, d) && PulledOk(s, d)
    requires P.CanApply(s.p, t) && s' == s.(p := P.DoApply(s.p, t))
    ensures PulledOk(s', d)
  {
    var id, c := s.p.threads[t].tx, s.p.threads[t].call;
    var m := Merged(s.p.txs[id], c.op);
    if d in s.pulled {
      if s.p.txs[id].dir == d && c.op.Structural() { assert StructuralOn(s.p.threads, t, d); }
      StatusKept(s.p.txs[id], c.op);
      LandedOrdinary(s.p, t, m, d);
      if Kept(s'.p, d) { LandedWasKept(s.p, t, m, d); }
    }
  }

  lemma StatusKept(tx: Tx, op: Op)
    ensures (op.Structural() ==> TableOp(op)) ==> Merged(tx, op).tx.status == tx.status
  {
  }

  lemma LandedOrdinary(p: P.State, t: nat, m: Merge, d: Ino)
    requires PipelineProof.TableOk(p.txs, p.table) && SwapOk(p.txs, p.table, p.swapped, p.commit)
    requires P.CanApply(p, t) && Ordinary(p.txs, p.table, d) && Ordinary(p.txs, p.swapped, d)
    requires p.txs[p.threads[t].tx].dir == d ==> m.tx.status == p.txs[p.threads[t].tx].status
    ensures var p' := P.Landed(p, t, m);
      Ordinary(p'.txs, p'.table, d) && Ordinary(p'.txs, p'.swapped, d) && p'.seen.stray == p.seen.stray
  {
    LandedTables(p, t, m);
    if m.outcome.Effective() {
      StillOrdinary(p.txs, p.table, d, p.threads[t].tx, m.tx);
      StillOrdinary(p.txs, p.swapped, d, p.threads[t].tx, m.tx);
    }
  }

  lemma LandedTables(p: P.State, t: nat, m: Merge)
    requires P.CanApply(p, t)
    ensures var p' := P.Landed(p, t, m);
      && p'.txs == (if m.outcome.Effective() then p.txs[p.threads[t].tx := m.tx] else p.txs)
      && p'.table == p.table && p'.swapped == p.swapped && p'.seen.stray == p.seen.stray
  {
    LandedRest(p, t, m);
    var p' := P.Landed(p, t, m);
    if m.outcome.Effective() {
      assert p'.txs == p.txs[p.threads[t].tx := m.tx];
    } else {
      assert p'.txs == p.txs;
    }
  }

  lemma LandedRest(p: P.State, t: nat, m: Merge)
    requires P.CanApply(p, t)
    ensures var p' := P.Landed(p, t, m);
      p'.table == p.table && p'.swapped == p.swapped && p'.seen.stray == p.seen.stray
  {
  }

  lemma StillOrdinary(txs: seq<Tx>, m: map<Ino, nat>, d: Ino, id: nat, x: Tx)
    requires Ordinary(txs, m, d) && id < |txs| && (txs[id].dir == d ==> x.status == txs[id].status)
    requires d in m ==> m[d] < |txs| && txs[m[d]].dir == d
    ensures Ordinary(txs[id := x], m, d)
  {
  }

  lemma OtherPulled(s: State, s': State, e: P.Event, d: Ino)
    requires Shape(s.p) && DirOk(s.p, d) && TableOk(s, d) && PulledOk(s, d)
    requires Enabled(s, Other(e)) && s' == Do(s, Other(e))
    ensures PulledOk(s', d)
  {
    match e {
      case Freeze(c) => FreezePulled(s, s', c, d);
      case Apply(t) => ApplyPulled(s, s', t, d);
      case _ => QuietPulled(s, s', e, d);
    }
  }

  lemma QuietPulled(s: State, s': State, e: P.Event, d: Ino)
    requires Shape(s.p) && PulledOk(s, d) && !e.Freeze? && !e.Apply?
    requires P.Enabled(s.p, e) && s'.p == P.Do(s.p, e) && s'.pulled == s.pulled && s'.tables.Keys == s.tables.Keys
    ensures PulledOk(s', d)
  {
    match e {
      case Insert(t) => if d in s.pulled { InsertOrdinary(s.p, t, d); }
      case ReplaceMap => SwapPulled(s, s', d);
      case Issue => IssuePulled(s, s', d);
      case _ => MovesOnly(s.p, e);
    }
  }

  lemma SwapPulled(s: State, s': State, d: Ino)
    requires PulledOk(s, d) && P.CanReplaceMap(s.p) && s'.p == P.DoReplaceMap(s.p)
    requires s'.pulled == s.pulled && s'.tables.Keys == s.tables.Keys
    ensures PulledOk(s', d)
  {
  }

  lemma IssuePulled(s: State, s': State, d: Ino)
    requires PulledOk(s, d) && P.CanIssue(s.p) && s'.p == P.DoIssue(s.p)
    requires s'.pulled == s.pulled && s'.tables.Keys == s.tables.Keys
    ensures PulledOk(s', d)
  {
  }

  lemma InsertOrdinary(p: P.State, t: nat, d: Ino)
    requires PipelineProof.TableOk(p.txs, p.table) && SwapOk(p.txs, p.table, p.swapped, p.commit)
    requires P.CanInsert(p, t) && Ordinary(p.txs, p.table, d) && Ordinary(p.txs, p.swapped, d)
    ensures var p' := P.DoInsert(p, t);
      && Ordinary(p'.txs, p'.table, d) && Ordinary(p'.txs, p'.swapped, d)
      && p'.seen.stray == p.seen.stray && p'.seen.history == p.seen.history
  {
  }

  // ---- Steps ----

  lemma OtherKeeps(s: State, e: P.Event)
    requires Inv(s) && Enabled(s, Other(e))
    ensures Inv(Do(s, Other(e)))
  {
    var s' := Do(s, Other(e));
    J.StepKeeps(s.p, e);
    forall d ensures MarksOk(s'.p, d) && TableOk(s', d) && PulledOk(s', d) {
      assert MarksOk(s.p, d) && TableOk(s, d) && PulledOk(s, d) && DirOk(s.p, d);
      MarksKeep(s.p, e, d);
      OtherPulled(s, s', e, d);
      OtherTable(s, s', e, d);
    }
  }

  lemma OtherTable(s: State, s': State, e: P.Event, d: Ino)
    requires PipelineProof.Inv(s.p) && MarksOk(s.p, d) && TableOk(s, d)
    requires Enabled(s, Other(e)) && s' == Do(s, Other(e))
    ensures TableOk(s', d)
  {
    if d in s.tables {
      if e.Apply? && StructuralOn(s.p.threads, e.t, d) {
        CatchUp(s, s', e.t, d);
      } else {
        QuietStep(s.p, e, d);
        Untouched(s, s', d);
      }
    }
  }

  lemma LocalKeeps(s: State, t: nat, c: Ino, op: Op)
    requires Inv(s) && Enabled(s, Local(t, c, op)) && Sensible(op, s.tables[c].inodes)
    ensures Inv(Do(s, Local(t, c, op)))
  {
    var s', e := Do(s, Local(t, c, op)), P.Begin(t, c, op);
    J.StepKeeps(s.p, e);
    forall d ensures MarksOk(s'.p, d) && TableOk(s', d) && PulledOk(s', d) {
      assert MarksOk(s.p, d) && TableOk(s, d) && PulledOk(s, d);
      MarksKeep(s.p, e, d);
      QuietPulled(s, s', e, d);
      if d == c {
        GetAhead(s, s', t, c, op);
      } else {
        QuietStep(s.p, e, d);
        Untouched(s, s', d);
      }
    }
  }

  /** With nothing pending the stored list is what the history says, and no commit was stray. */
  lemma PullsHistory(p: P.State, d: Ino)
    requires Shape(p) && DirOk(p, d) && d in p.store && Idle(p, d) && Kept(p, d)
    ensures d !in p.seen.stray && Known(p, d) == Present(p.store[d])
  {
    assert P.Settled(p, d) == P.Stored(p, d);
  }

  lemma PullKeeps(s: State, c: Ino)
    requires Inv(s) && Enabled(s, Pull(c))
    ensures Inv(Do(s, Pull(c)))
  {
    var s' := Do(s, Pull(c));
    assert forall u :: !StructuralOn(s.p.threads, u, c);
    forall d ensures TableOk(s', d) && PulledOk(s', d) {
      assert DirOk(s.p, d) && TableOk(s, d) && PulledOk(s, d);
      if d == c && Kept(s.p, d) { PullsHistory(s.p, d); }
    }
  }

  lemma AdoptKeeps(s: State, c: Ino)
    requires Inv(s) && Enabled(s, Adopt(c))
    ensures Inv(Do(s, Adopt(c)))
  {
    var s' := Do(s, Adopt(c));
    assert forall u :: !StructuralOn(s.p.threads, u, c);
    forall d ensures TableOk(s', d) && PulledOk(s', d) {
      assert TableOk(s, d) && PulledOk(s, d);
    }
  }

  lemma ReleaseKeeps(s: State, c: Ino)
    requires Inv(s)
    ensures Inv(Do(s, Release(c)))
  {
    var s' := Do(s, Release(c));
    forall d ensures TableOk(s', d) && PulledOk(s', d) {
      assert TableOk(s, d) && PulledOk(s, d);
    }
  }

  lemma RebasedWorkers(p: P.State, d: Ino, dir: Dir)
    requires WorkersOk(p.txs, p.store, p.workers) && P.Issued(p.txs, p.queues, p.workers, d) == []
    requires QueuesOk(p.txs, p.queues)
    ensures WorkersOk(p.txs, Put(p.store, d, dir), p.workers)
  {
    forall i | 0 <= i < P.NUM_CP_THREAD ensures Fresh(p.txs, Put(p.store, d, dir), p.workers[i]) {
      assert Fresh(p.txs, p.store, p.workers[i]);
      assert p.workers[i].Loaded? ==> Routed(p.txs, i, p.workers[i].tx);
      assert P.InHand(p.txs, p.workers[P.Route(d)], d) == [];
    }
  }

  lemma RebasedDir(p: P.State, p': P.State, c: Ino, dir: Dir, d: Ino)
    requires Shape(p) && DirOk(p, d) && Idle(p, c) && dir != Corrupt && p' == Rebased(p, c, dir)
    ensures DirOk(p', d) && (MarksOk(p, d) ==> MarksOk(p', d))
  {
    if d == c {
      assert P.Settled(p', d) == P.Stored(p', d) == P.Based(p', d) && P.History(p', d) == [];
    } else {
      RebasedAside(p, p', c, dir, d);
    }
  }

  lemma RebasedAside(p: P.State, p': P.State, c: Ino, dir: Dir, d: Ino)
    requires DirOk(p, d) && d != c && p' == Rebased(p, c, dir)
    ensures DirOk(p', d) && (MarksOk(p, d) ==> MarksOk(p', d))
  {
    assert P.Based(p', d) == P.Based(p, d) && P.Stored(p', d) == P.Stored(p, d) && P.History(p', d) == P.History(p, d);
    assert P.Settled(p', d) == P.Settled(p, d) && P.Replayed(p', d) == P.Replayed(p, d);
    assert Fixed(p', d) == Fixed(p, d);
  }

  lemma ElsewhereKeeps(s: State, c: Ino, dir: Dir)
    requires Inv(s) && Enabled(s, Elsewhere(c, dir))
    ensures Inv(Do(s, Elsewhere(c, dir)))
  {
    var s' := Do(s, Elsewhere(c, dir));
    RebasedWorkers(s.p, c, dir);
    forall d ensures DirOk(s'.p, d) && MarksOk(s'.p, d) && TableOk(s', d) && PulledOk(s', d) {
      assert DirOk(s.p, d) && MarksOk(s.p, d) && TableOk(s, d) && PulledOk(s, d);
      RebasedDir(s.p, s'.p, c, dir, d);
      if d in s.tables {
        assert P.Based(s'.p, d) == P.Based(s.p, d) && P.History(s'.p, d) == P.History(s.p, d);
        Untouched(s, s', d);
      }
    }
  }

  lemma StepKeeps(s: State, e: Event)
    requires Inv(s) && Enabled(s, e) && (e.Local? ==> Sensible(e.op, s.tables[e.d].inodes))
    ensures Inv(Do(s, e))
  {
    match e {
      case Local(t, d, op) => LocalKeeps(s, t, d, op);
      case Other(e) => OtherKeeps(s, e);
      case Pull(d) => PullKeeps(s, d);
      case Adopt(d) => AdoptKeeps(s, d);
      case Release(d) => ReleaseKeeps(s, d);
      case Elsewhere(d, dir) => ElsewhereKeeps(s, d, dir);
    }
  }

  lemma {:induction false} RunKeeps(s0: State, events: seq<Event>, s: State)
    requires Inv(s0) && Reaches(s0, events, s) && AllSensible(s0, events)
    ensures Inv(s)
    decreases |events|
  {
    if events != [] {
      StepKeeps(s0, events[0]);
      RunKeeps(Do(s0, events[0]), events[1..], s);
    }
  }

  /**
    Memory equals store plus pending work: in every state of every run, for every table a client holds on a
    directory whose life cycle was kept, child_inodes and dentries have the same names and inode numbers, and
    whenever no call on the directory is under way, both equal the stored list with all pending transactions
    applied, exactly unless a commit of the directory was stray. A table that was pulled with nothing of its
    directory pending never sees a stray commit.
   */
  lemma MemoryIsStorePlusPending(s0: State, events: seq<Event>, s: State, d: Ino)
    requires Init(s0) && Reaches(s0, events, s) && AllSensible(s0, events) && d in s.tables
    requires LegalRun(P.Based(s.p, d), P.History(s.p, d))
    ensures s.tables[d].inodes == s.tables[d].list
    ensures P.MutexFree(s.p, d) ==> (P.Replayed(s.p, d) == Present(s.tables[d].list) <==> d !in s.p.seen.stray)
    ensures d in s.pulled ==> d !in s.p.seen.stray
  {
    InitInv(s0);
    RunKeeps(s0, events, s);
    assert TableOk(s, d) && PulledOk(s, d) && DirOk(s.p, d);
    if P.MutexFree(s.p, d) {
      assert forall t :: !StructuralOn(s.p.threads, t, d);
      StrayReplays(s.p, d);
    }
  }

  /** A stray commit shows in the replay. */
  lemma StrayReplays(p: P.State, d: Ino)
    requires DirOk(p, d) && Kept(p, d)
    ensures if d in p.seen.stray then P.Replayed(p, d) == Corrupt else P.Replayed(p, d) == Known(p, d)
  {
  }
}
