/**
  What a transaction holds and how a call on it ends, told from the operations that reached it
  (client/journal/transaction.cpp:136-367).
 */
module Deltas {
  import opened Types
  import opened Transactions
  import opened Coalescing

  // ---- The directory's own inode ----

  /** mkself and chself store the inode they are given. */
  predicate Gives(op: Op) { op.MkSelf? || op.ChSelf? }

  /**
    Operation `b` supplies the inode: it is the last mkself or chself, or the first entry operation when there
    is neither.
   */
  predicate BaseAt(ops: seq<Op>, b: nat) {
    && b < |ops| && (forall k :: b < k < |ops| ==> !Gives(ops[k]))
    && (Gives(ops[b]) || (ops[b].OnEntries() && forall k :: 0 <= k < b ==> !Gives(ops[k]) && !ops[k].OnEntries()))
  }

  /** Operation `s` supplies the times: it is the last entry operation after `b`, or `b` when there is none. */
  predicate StampAt(ops: seq<Op>, b: nat, s: nat) {
    && b <= s < |ops| && (s == b || ops[s].OnEntries())
    && forall k :: s < k < |ops| ==> !ops[k].OnEntries()
  }

  /** Inode `i` is `b` with its modification and change times taken from `s`. */
  predicate Stamped(i: Inode, b: Inode, s: Inode) {
    && i.core[..64] == b.core[..64] && i.core[64..96] == s.core[64..96] && i.core[96..] == b.core[96..]
    && i.link == b.link
  }

  lemma StampedNow(i: Inode, b: Inode, s: Inode, from: Inode)
    requires Stamped(i, b, s)
    ensures Stamped(WithTimes(i, from), b, from)
  {
    var w := WithTimes(i, from);
    assert w.core[..64] == i.core[..64] && w.core[64..96] == from.core[64..96] && w.core[96..] == i.core[96..];
  }

  lemma SelfStep(tx: Tx, op: Op)
    requires Merged(tx, op).outcome.Effective()
    ensures Merged(tx, op).tx.self ==
      if Gives(op) then Some(op.self)
      else if op.OnEntries() then MergeSelf(tx.self, op.self)
      else tx.self
  {
  }

  lemma OneMoreOp(ops: seq<Op>, b: nat, s: nat)
    requires ops != [] && BaseAt(ops[..|ops| - 1], b) && StampAt(ops[..|ops| - 1], b, s)
    ensures var op := ops[|ops| - 1];
      && (!Gives(op) ==> BaseAt(ops, b))
      && (op.OnEntries() ==> StampAt(ops, b, |ops| - 1))
      && (!op.OnEntries() ==> StampAt(ops, b, s))
  {
    var front := ops[..|ops| - 1];
    assert forall k :: 0 <= k < |front| ==> ops[k] == front[k];
  }

  /**
    The inode a transaction holds for its directory: none when no operation carried one, otherwise the inode of
    operation `b` with the times of operation `s`.
   */
  lemma {:induction false} SelfIsLatest(dir: Ino, ops: seq<Op>) returns (b: nat, s: nat)
    requires AllEffective(dir, ops)
    ensures RunOps(dir, ops).self == None <==> forall k :: 0 <= k < |ops| ==> !Gives(ops[k]) && !ops[k].OnEntries()
    ensures RunOps(dir, ops).self.Some? ==>
      && BaseAt(ops, b) && StampAt(ops, b, s)
      && Stamped(RunOps(dir, ops).self.value, ops[b].self, ops[s].self)
  {
    b, s := 0, 0;
    if ops != [] {
      var front, op := ops[..|ops| - 1], ops[|ops| - 1];
      b, s := SelfIsLatest(dir, front);
      assert forall k :: 0 <= k < |front| ==> ops[k] == front[k];
      SelfStep(RunOps(dir, front), op);
      var was := RunOps(dir, front).self;
      if Gives(op) || (op.OnEntries() && was == None) {
        b, s := |ops| - 1, |ops| - 1;
      } else if was.Some? {
        OneMoreOp(ops, b, s);
        if op.OnEntries() {
          StampedNow(was.value, ops[b].self, ops[s].self, op.self);
          s := |ops| - 1;
        }
      }
    }
  }

  // ---- Status ----

  /** What the last mkself or rmself made of the directory. */
  function LastStatus(ops: seq<Op>): Status {
    if ops == [] then Unchanged
    else
      var op := ops[|ops| - 1];
      if op.MkSelf? then Created else if op.RmSelf? then Deleted else LastStatus(ops[..|ops| - 1])
  }

  lemma StatusStep(tx: Tx, op: Op)
    requires Merged(tx, op).outcome.Effective()
    ensures Merged(tx, op).tx.status == if op.MkSelf? then Created else if op.RmSelf? then Deleted else tx.status
  {
  }

  lemma {:induction false} StatusIsLatest(dir: Ino, ops: seq<Op>)
    requires AllEffective(dir, ops)
    ensures RunOps(dir, ops).status == LastStatus(ops)
  {
    if ops != [] {
      var front := ops[..|ops| - 1];
      StatusIsLatest(dir, front);
      StatusStep(RunOps(dir, front), ops[|ops| - 1]);
    }
  }

  // ---- Marks ----

  /** What an operation says about name `n`: bound, dropped, or nothing. */
  function Says(op: Op, n: Name): Option<Mark> {
    match op
    case MkDir(_, name, i) => if n == name then Some(Mark(true, i)) else None
    case MkReg(_, name, f) => if n == name then Some(Mark(true, InoOf(f))) else None
    case RmDir(_, name, i) => if n == name then Some(Mark(false, i)) else None
    case RmReg(_, name, f) => if n == name then Some(Mark(false, InoOf(f))) else None
    case MvDir(_, src, i, dst, _) =>
      if n == dst then Some(Mark(true, i)) else if n == src then Some(Mark(false, i)) else None
    case MvReg(_, src, i, dst, _) =>
      if n == dst then Some(Mark(true, i)) else if n == src then Some(Mark(false, i)) else None
    case _ => None
  }

  /** What the last operation that names `n` says about it. */
  function LastWord(ops: seq<Op>, n: Name): Option<Mark> {
    if ops == [] then None
    else
      var last := Says(ops[|ops| - 1], n);
      if last.Some? then last else LastWord(ops[..|ops| - 1], n)
  }

  function MarkAt(marks: map<Name, Mark>, n: Name): Option<Mark> {
    if n in marks then Some(marks[n]) else None
  }

  lemma MarkStep(tx: Tx, op: Op, n: Name)
    requires Merged(tx, op).outcome.Effective()
    ensures MarkAt(Merged(tx, op).tx.dentries, n) ==
      if Says(op, n).Some? then Says(op, n) else MarkAt(tx.dentries, n)
  {
  }

  /** For each name the delta keeps the last word on it, and no other name. */
  lemma {:induction false} MarksAreLatest(dir: Ino, ops: seq<Op>, n: Name)
    requires AllEffective(dir, ops)
    ensures LastWord(ops, n) == MarkAt(RunOps(dir, ops).dentries, n)
  {
    if ops != [] {
      MarksAreLatest(dir, ops[..|ops| - 1], n);
      MarkStep(RunOps(dir, ops[..|ops| - 1]), ops[|ops| - 1], n);
    }
  }

  // ---- Files ----

  /** What the last operation on file `i` that did not throw left of it. */
  function LastKept(ops: seq<Op>, i: Ino): Option<Option<Inode>> {
    if ops == [] then None
    else
      var op, front := ops[|ops| - 1], ops[..|ops| - 1];
      if Touch(op, i).Some? && !Clashes(op, front) then Touch(op, i) else LastKept(front, i)
  }

  /** For each file the delta keeps exactly what the last operation on it left, passing over those that threw. */
  lemma {:induction false} FilesAreKept(dir: Ino, ops: seq<Op>, i: Ino)
    requires AllEffective(dir, ops)
    ensures LastKept(ops, i) == FileAt(RunOps(dir, ops).files, i)
  {
    if ops != [] {
      var front, op := ops[..|ops| - 1], ops[|ops| - 1];
      var tx := RunOps(dir, front);
      FilesAreKept(dir, front, i);
      NeverCommitted(dir, front);
      ThrowsExactly(dir, front, op);
      MergedFiles(tx, op);
      OneFile(tx.files, op, i);
      EffectiveEntries(tx, op);
    }
  }

  /** Every live file inode is kept under its own number. */
  lemma {:induction false} FilesAreKeyed(dir: Ino, ops: seq<Op>, i: Ino)
    requires AllEffective(dir, ops) && i in RunOps(dir, ops).files && RunOps(dir, ops).files[i].Some?
    ensures InoOf(RunOps(dir, ops).files[i].value) == i
  {
    FilesAreKept(dir, ops, i);
    KeptIsKeyed(ops, i);
  }

  lemma {:induction false} KeptIsKeyed(ops: seq<Op>, i: Ino)
    ensures LastKept(ops, i).Some? && LastKept(ops, i).value.Some? ==> InoOf(LastKept(ops, i).value.value) == i
  {
    if ops != [] { KeptIsKeyed(ops[..|ops| - 1], i); }
  }

  lemma EffectiveEntries(tx: Tx, op: Op)
    requires Merged(tx, op).outcome.Effective()
    ensures MergeEntries(tx.dentries, op).Some?
  {
  }

  // ---- How a call ends ----

  /** A name that was last bound is bound again, or one that was last dropped is dropped or moved. */
  predicate Collides(op: Op, ops: seq<Op>) {
    match op
    case MkDir(_, n, _) => LastWord(ops, n).Some? && LastWord(ops, n).value.alive
    case MkReg(_, n, _) => LastWord(ops, n).Some? && LastWord(ops, n).value.alive
    case RmDir(_, n, _) => LastWord(ops, n).Some? && !LastWord(ops, n).value.alive
    case RmReg(_, n, _) => LastWord(ops, n).Some? && !LastWord(ops, n).value.alive
    case MvDir(_, n, _, _, _) => LastWord(ops, n).Some? && !LastWord(ops, n).value.alive
    case MvReg(_, n, _, _, _) => LastWord(ops, n).Some? && !LastWord(ops, n).value.alive
    case _ => false
  }

  /** A transaction that `ops` brought about, still open or committed since. */
  function After(dir: Ino, ops: seq<Op>, committed: bool): Tx {
    RunOps(dir, ops).(committed := committed)
  }

  /** How a call ends, for every operation on every transaction: by its flag and by what reached it before. */
  lemma EndsExactly(dir: Ino, ops: seq<Op>, committed: bool, op: Op)
    requires AllEffective(dir, ops)
    ensures var end := Merged(After(dir, ops, committed), op).outcome;
      && (end == Refused <==> committed)
      && (end == EntryError <==> !committed && Collides(op, ops))
      && (end == InodeError <==> !committed && !Collides(op, ops) && Clashes(op, ops))
      && (end == Accepted <==> !committed && !Collides(op, ops) && !Clashes(op, ops))
  {
    NeverCommitted(dir, ops);
    CollidesExactly(dir, ops, op);
    ThrowsExactly(dir, ops, op);
    assert !committed ==> After(dir, ops, committed) == RunOps(dir, ops);
  }

  lemma CollidesExactly(dir: Ino, ops: seq<Op>, op: Op)
    requires AllEffective(dir, ops)
    ensures MergeEntries(RunOps(dir, ops).dentries, op).None? <==> Collides(op, ops)
  {
    match op {
      case MkDir(_, n, _) => MarksAreLatest(dir, ops, n);
      case MkReg(_, n, _) => MarksAreLatest(dir, ops, n);
      case RmDir(_, n, _) => MarksAreLatest(dir, ops, n);
      case RmReg(_, n, _) => MarksAreLatest(dir, ops, n);
      case MvDir(_, n, _, _, _) => MarksAreLatest(dir, ops, n);
      case MvReg(_, n, _, _, _) => MarksAreLatest(dir, ops, n);
      case _ =>
    }
  }

  /**
    A rename onto the same name journals the removal of that name twice: in one transaction the second call
    always throws, whatever came before.
   */
  lemma DroppedTwice(dir: Ino, ops: seq<Op>, self: Inode, name: Name, file: Inode)
    requires AllEffective(dir, ops) && Merged(RunOps(dir, ops), RmReg(self, name, file)).outcome.Effective()
    ensures Merged(RunOps(dir, ops + [RmReg(self, name, file)]), RmReg(self, name, file)).outcome == EntryError
  {
    var op, more := RmReg(self, name, file), ops + [RmReg(self, name, file)];
    assert more[..|ops|] == ops;
    NeverCommitted(dir, more);
    CollidesExactly(dir, more, op);
  }
}
