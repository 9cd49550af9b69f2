/**
  The journal pipeline as a step machine: operation threads, the commit thread and the
  checkpoint threads, interleaved at every lock boundary
  (client/journal/{journal,journal_table,commit,checkpoint,transaction}.cpp, mqueue.hpp).
 */
module Pipeline {
  import opened Types
  import opened Transactions

  const NUM_CP_THREAD := 8

  /** The queue a directory's transactions go through: its first eight bytes, as a number, modulo eight. */
  function Route(dir: Ino): (i: nat)
    ensures i < NUM_CP_THREAD && i == dir[0] % 8
  {
    FromLe(dir[..8]) % NUM_CP_THREAD
  }

  /** One call of a journal operation. Call numbers are never reused. */
  datatype Call = Call(id: nat, dir: Ino, op: Op)

  /** Where an operation thread stands in `while (true) { tx = get_entry(ino); if (!tx->op(...)) break; }`. */
  datatype Pc =
    | Looking(call: Call)            // about to look the table up under the shared lock
    | Missed(call: Call)             // found nothing, about to insert under the unique lock
    | Holding(call: Call, tx: nat)   // holds a transaction, about to merge into it

  /** Where the commit thread stands: between transactions, committed flag set, or record appended. */
  datatype CommitPc = Between | Frozen(dir: Ino) | Logged(dir: Ino)

  /** Where a checkpoint thread stands. */
  datatype Worker =
    | Waiting
    | Took(tx: nat)                  // dispatched, nothing read yet
    | Loaded(tx: nat, list: Children) // the dentry is in memory, marks not written yet
    | Synced(tx: nat)                // dentry object written, journal byte not cleared yet
    | Crashed(tx: nat)               // "Dentry Corrupted"

  /** A merge that took effect: call `id` changed transaction `tx`. */
  datatype Placement = Placement(id: nat, op: Op, tx: nat)

  /** A record appended to the journal, with the transaction as it was serialized. */
  datatype Record = Record(tx: nat, content: Tx)

  /**
    What is observed and never read by a step: calls made, merges in order, calls returned, calls that threw
    before they changed anything, records, structural merges per directory, and directories for which an
    unfilled transaction was committed too early.
   */
  datatype Seen = Seen(
    calls: seq<Call>, placed: seq<Placement>, returned: set<nat>, rejected: set<nat>,
    records: seq<Record>, history: map<Ino, seq<Op>>, stray: set<Ino>)

  /**
    `base` is the store at the start. `table` is the journal table, `swapped` the part of the last swapped-out
    map the commit thread has not issued yet.
   */
  datatype State = State(
    base: map<Ino, Children>, store: map<Ino, Children>, txs: seq<Tx>,
    table: map<Ino, nat>, swapped: map<Ino, nat>, commit: CommitPc,
    queues: seq<seq<nat>>, workers: seq<Worker>, threads: map<nat, Pc>, seen: Seen)

  predicate Init(s: State) {
    && s.store == s.base && s.txs == [] && s.table == map[] && s.swapped == map[] && s.commit == Between
    && s.queues == seq(NUM_CP_THREAD, _ => []) && s.workers == seq(NUM_CP_THREAD, _ => Waiting)
    && s.threads == map[] && s.seen == Seen([], [], {}, {}, [], map[], {})
  }

  function Lookup(m: map<Ino, Children>, d: Ino): Dir {
    if d in m then Present(m[d]) else Absent
  }

  function Stored(s: State, d: Ino): Dir {
    Lookup(s.store, d)
  }

  function Based(s: State, d: Ino): Dir {
    Lookup(s.base, d)
  }

  function History(s: State, d: Ino): seq<Op> {
    if d in s.seen.history then s.seen.history[d] else []
  }

  /** The transactions of `d` in a queue, oldest first. */
  function OfDir(txs: seq<Tx>, q: seq<nat>, d: Ino): seq<nat> {
    if q == [] then []
    else
      var t := q[|q| - 1];
      var front := OfDir(txs, q[..|q| - 1], d);
      if t < |txs| && txs[t].dir == d then front + [t] else front
  }

  /** The transaction a checkpoint thread still has to write, if it belongs to `d`. */
  function InHand(txs: seq<Tx>, w: Worker, d: Ino): seq<nat> {
    if (w.Took? || w.Loaded? || w.Crashed?) && w.tx < |txs| && txs[w.tx].dir == d then [w.tx] else []
  }

  /** Issued and not yet written transactions of `d`: the one in hand, then the queued ones. */
  function Issued(txs: seq<Tx>, queues: seq<seq<nat>>, workers: seq<Worker>, d: Ino): seq<nat> {
    if |queues| == NUM_CP_THREAD == |workers|
    then InHand(txs, workers[Route(d)], d) + OfDir(txs, queues[Route(d)], d)
    else []
  }

  /** Transactions `ids` carried out one after the other. */
  function Replay(txs: seq<Tx>, b: Dir, ids: seq<nat>): Dir {
    if ids == [] then b
    else
      var t := ids[|ids| - 1];
      var before := Replay(txs, b, ids[..|ids| - 1]);
      if t < |txs| then Effect(txs[t], before) else before
  }

  /** `b` after the transaction that map `m` holds for `d`, if it holds one. */
  function Through(txs: seq<Tx>, m: map<Ino, nat>, d: Ino, b: Dir): Dir {
    if d in m && m[d] < |txs| then Effect(txs[m[d]], b) else b
  }

  /** The store once every issued transaction of `d` is written. */
  function Settled(s: State, d: Ino): Dir {
    Replay(s.txs, Stored(s, d), Issued(s.txs, s.queues, s.workers, d))
  }

  /** The store once every pending transaction of `d` is carried out: issued, then in commit, then open. */
  function Replayed(s: State, d: Ino): Dir {
    Through(s.txs, s.table, d, Through(s.txs, s.swapped, d, Settled(s, d)))
  }

  datatype Event =
    | Begin(t: nat, dir: Ino, op: Op)
    | Find(t: nat)
    | Insert(t: nat)
    | Apply(t: nat)
    | ReplaceMap
    | Freeze(dir: Ino)
    | Append
    | Issue
    | Dispatch(w: nat)
    | Load(w: nat)
    | Write(w: nat)
    | Clear(w: nat)

  /** No structural call on `d` is under way: what holding the directory mutex gives. */
  predicate MutexFree(s: State, d: Ino) {
    forall t :: t in s.threads && s.threads[t].call.dir == d ==> !s.threads[t].call.op.Structural()
  }

  predicate CanBegin(s: State, t: nat, d: Ino, op: Op) {
    t !in s.threads && (op.Structural() ==> MutexFree(s, d))
  }

  predicate CanFind(s: State, t: nat) { t in s.threads && s.threads[t].Looking? }

  predicate CanReplaceMap(s: State) { s.commit == Between && s.swapped == map[] }

  predicate CanInsert(s: State, t: nat) { t in s.threads && s.threads[t].Missed? }

  predicate CanApply(s: State, t: nat) {
    t in s.threads && s.threads[t].Holding? && s.threads[t].tx < |s.txs|
  }

  predicate CanFreeze(s: State, d: Ino) { s.commit == Between && d in s.swapped && s.swapped[d] < |s.txs| }

  predicate CanAppend(s: State) {
    s.commit.Frozen? && s.commit.dir in s.swapped && s.swapped[s.commit.dir] < |s.txs|
  }

  predicate CanIssue(s: State) { s.commit.Logged? && s.commit.dir in s.swapped && |s.queues| == NUM_CP_THREAD }

  predicate CanDispatch(s: State, w: nat) {
    w < |s.workers| && w < |s.queues| && s.workers[w].Waiting? && s.queues[w] != []
  }

  predicate CanLoad(s: State, w: nat) { w < |s.workers| && s.workers[w].Took? && s.workers[w].tx < |s.txs| }

  predicate CanWrite(s: State, w: nat) { w < |s.workers| && s.workers[w].Loaded? && s.workers[w].tx < |s.txs| }

  predicate CanClear(s: State, w: nat) { w < |s.workers| && s.workers[w].Synced? }

  predicate Enabled(s: State, e: Event) {
    match e
    case Begin(t, d, op) => CanBegin(s, t, d, op)
    case Find(t) => CanFind(s, t)
    case Insert(t) => CanInsert(s, t)
    case Apply(t) => CanApply(s, t)
    case ReplaceMap => CanReplaceMap(s)
    case Freeze(d) => CanFreeze(s, d)
    case Append => CanAppend(s)
    case Issue => CanIssue(s)
    case Dispatch(w) => CanDispatch(s, w)
    case Load(w) => CanLoad(s, w)
    case Write(w) => CanWrite(s, w)
    case Clear(w) => CanClear(s, w)
  }

  /** journal_table::get_entry, second half: insert a fresh transaction unless one appeared meanwhile. */
  function DoInsert(s: State, t: nat): (r: State)
    requires CanInsert(s, t)
    ensures r.base == s.base
  {
    var c := s.threads[t].call;
    if c.dir in s.table then s.(threads := s.threads[t := Holding(c, s.table[c.dir])])
    else
      s.(txs := s.txs + [NewTx(c.dir)],
         table := s.table[c.dir := |s.txs|],
         threads := s.threads[t := Holding(c, |s.txs|)])
  }

  /** Thread `t` after its merge ended with `m`: -1 sends it around its loop again, an exception ends it. */
  function Landed(s: State, t: nat, m: Merge): (r: State)
    requires CanApply(s, t)
    ensures r.base == s.base
  {
    var c, id := s.threads[t].call, s.threads[t].tx;
    if m.outcome.Refused? then s.(threads := s.threads[t := Looking(c)])
    else if m.outcome.EntryError? then
      s.(threads := s.threads - {t}, seen := s.seen.(rejected := s.seen.rejected + {c.id}))
    else
      s.(txs := s.txs[id := m.tx],
         threads := s.threads - {t},
         seen := s.seen.(
           placed := s.seen.placed + [Placement(c.id, c.op, id)],
           returned := if m.outcome.Accepted? then s.seen.returned + {c.id} else s.seen.returned,
           history :=
             if c.op.Structural() then s.seen.history[c.dir := History(s, c.dir) + [c.op]] else s.seen.history))
  }

  /** tx->op(...) under the transaction's mutex. */
  function DoApply(s: State, t: nat): (r: State)
    requires CanApply(s, t)
    ensures r.base == s.base
  {
    Landed(s, t, Merged(s.txs[s.threads[t].tx], s.threads[t].call.op))
  }

  /**
    transaction::commit, first half: set the committed flag. The commit is stray when no mkself has
    reached the transaction although its directory will not exist when the transaction is written.
   */
  function DoFreeze(s: State, d: Ino): (r: State)
    requires CanFreeze(s, d)
    ensures r.base == s.base && r.threads == s.threads
  {
    var id := s.swapped[d];
    var tx := s.txs[id];
    s.(txs := s.txs[id := tx.(committed := true)],
       commit := Frozen(d),
       seen := s.seen.(stray := if tx.status == Unchanged && Settled(s, d) == Absent
                then s.seen.stray + {d} else s.seen.stray))
  }

  /** transaction::sync up to the dentry constructor, which throws when the object is missing. */
  function DoLoad(s: State, w: nat): (r: State)
    requires CanLoad(s, w)
    ensures r.base == s.base && r.threads == s.threads
  {
    var id := s.workers[w].tx;
    var tx := s.txs[id];
    var next :=
      if tx.status != Unchanged then Loaded(id, map[])
      else if tx.dir in s.store then Loaded(id, s.store[tx.dir])
      else Crashed(id);
    s.(workers := s.workers[w := next])
  }

  /** The rest of transaction::sync: remove the dentry object, or write the marked list. */
  function DoWrite(s: State, w: nat): (r: State)
    requires CanWrite(s, w)
    ensures r.base == s.base && r.threads == s.threads
  {
    var id := s.workers[w].tx;
    var tx := s.txs[id];
    s.(workers := s.workers[w := Synced(id)],
       store := if tx.status == Deleted then s.store - {tx.dir}
                else s.store[tx.dir := ApplyMarks(tx.dentries, s.workers[w].list)])
  }

  function DoBegin(s: State, t: nat, d: Ino, op: Op): (r: State)
    requires CanBegin(s, t, d, op)
    ensures r.base == s.base
  {
    var c := Call(|s.seen.calls|, d, op);
    s.(threads := s.threads[t := Looking(c)], seen := s.seen.(calls := s.seen.calls + [c]))
  }

  /** journal_table::get_entry, first half: look the table up. */
  function DoFind(s: State, t: nat): (r: State)
    requires CanFind(s, t)
    ensures r.base == s.base
  {
    var c := s.threads[t].call;
    s.(threads := s.threads[t := if c.dir in s.table then Holding(c, s.table[c.dir]) else Missed(c)])
  }

  /** journal_table::replace_map. */
  function DoReplaceMap(s: State): (r: State)
    ensures r.base == s.base
  {
    s.(swapped := s.table, table := map[])
  }

  /** transaction::commit, second half: append the record. */
  function DoAppend(s: State): (r: State)
    requires CanAppend(s)
    ensures r.base == s.base
  {
    var id := s.swapped[s.commit.dir];
    s.(seen := s.seen.(records := s.seen.records + [Record(id, s.txs[id])]), commit := Logged(s.commit.dir))
  }

  /** q[i].issue(tx). */
  function DoIssue(s: State): (r: State)
    requires CanIssue(s)
    ensures r.base == s.base
  {
    var d := s.commit.dir;
    s.(queues := s.queues[Route(d) := s.queues[Route(d)] + [s.swapped[d]]],
       swapped := s.swapped - {d},
       commit := Between)
  }

  /** q->dispatch(). */
  function DoDispatch(s: State, w: nat): (r: State)
    requires CanDispatch(s, w)
    ensures r.base == s.base
  {
    s.(workers := s.workers[w := Took(s.queues[w][0])], queues := s.queues[w := s.queues[w][1..]])
  }

  /** The end of transaction::checkpoint. */
  function DoClear(s: State, w: nat): (r: State)
    requires CanClear(s, w)
    ensures r.base == s.base
  {
    s.(workers := s.workers[w := Waiting])
  }

  function Do(s: State, e: Event): (r: State)
    requires Enabled(s, e)
    ensures r.base == s.base
  {
    match e
    case Begin(t, d, op) => DoBegin(s, t, d, op)
    case Find(t) => DoFind(s, t)
    case Insert(t) => DoInsert(s, t)
    case Apply(t) => DoApply(s, t)
    case ReplaceMap => DoReplaceMap(s)
    case Freeze(d) => DoFreeze(s, d)
    case Append => DoAppend(s)
    case Issue => DoIssue(s)
    case Dispatch(w) => DoDispatch(s, w)
    case Load(w) => DoLoad(s, w)
    case Write(w) => DoWrite(s, w)
    case Clear(w) => DoClear(s, w)
  }

  /** `s` can be reached from `s0` by carrying out `events` in order. */
  predicate Reaches(s0: State, events: seq<Event>, s: State)
    decreases |events|
  {
    if events == [] then s == s0
    else
      var e := events[0];
      Enabled(s0, e) && Reaches(Do(s0, e), events[1..], s)
  }
}
