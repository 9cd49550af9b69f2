/** The delta a transaction accumulates, as values (client/journal/transaction.cpp). */
module Transactions {
  import opened Types

  datatype Status = Unchanged | Created | Deleted

  /** One entry of `dentries`: added (alive) or deleted, with its inode number. */
  datatype Mark = Mark(alive: bool, ino: Ino)

  /** A transaction of directory `dir`. In `files`, None stands for the null pointer of a deleted file. */
  datatype Tx = Tx(dir: Ino, committed: bool, status: Status, self: Option<Inode>,
                   dentries: map<Name, Mark>, files: map<Ino, Option<Inode>>)

  function NewTx(dir: Ino): Tx {
    Tx(dir, false, Unchanged, None, map[], map[])
  }

  datatype Op =
    | MkSelf(self: Inode)
    | RmSelf
    | ChSelf(self: Inode)
    | MkDir(self: Inode, name: Name, ino: Ino)
    | RmDir(self: Inode, name: Name, ino: Ino)
    | MvDir(self: Inode, src: Name, srcIno: Ino, dst: Name, dstIno: Ino)
    | MkReg(self: Inode, name: Name, file: Inode)
    | RmReg(self: Inode, name: Name, file: Inode)
    | MvReg(self: Inode, src: Name, srcIno: Ino, dst: Name, dstIno: Ino)
    | ChReg(file: Inode)
  {
    /** chself and chreg run outside the directory mutex and never touch the entries. */
    predicate Structural() {
      !ChSelf? && !ChReg?
    }

    predicate OnEntries() {
      Structural() && !MkSelf? && !RmSelf?
    }
  }

  /**
    How a call on a transaction ends: merged; refused with -1 because the transaction is
    committed; a logic_error from the `dentries` branch, raised before anything changed; or a
    logic_error from the `f_inodes` branch, raised after the entry change was made.
   */
  datatype Outcome = Accepted | Refused | EntryError | InodeError {
    predicate Effective() {
      Accepted? || InodeError?
    }
  }

  datatype Merge = Merge(tx: Tx, outcome: Outcome)

  /** mkdir/mkreg on the entry map: None is the logic_error. */
  function AddMark(marks: map<Name, Mark>, name: Name, ino: Ino): Option<map<Name, Mark>> {
    if name in marks && marks[name].alive then None else Some(marks[name := Mark(true, ino)])
  }

  /** rmdir/rmreg on the entry map: None is the logic_error. */
  function DropMark(marks: map<Name, Mark>, name: Name, ino: Ino): Option<map<Name, Mark>> {
    if name in marks && !marks[name].alive then None else Some(marks[name := Mark(false, ino)])
  }

  /** The entry map after the `dentries` branch of `op`: None is the logic_error. */
  function MergeEntries(marks: map<Name, Mark>, op: Op): Option<map<Name, Mark>> {
    match op
    case MkDir(_, n, i) => AddMark(marks, n, i)
    case MkReg(_, n, f) => AddMark(marks, n, InoOf(f))
    case RmDir(_, n, i) => DropMark(marks, n, i)
    case RmReg(_, n, f) => DropMark(marks, n, InoOf(f))
    case MvDir(_, src, si, dst, _) =>
      (match DropMark(marks, src, si)
       case None => None
       case Some(m) => Some(m[dst := Mark(true, si)]))
    case MvReg(_, src, si, dst, _) =>
      (match DropMark(marks, src, si)
       case None => None
       case Some(m) => Some(m[dst := Mark(true, si)]))
    case _ => Some(marks)
  }

  /** The directory's own inode after an entry operation made with directory inode `from`. */
  function MergeSelf(cur: Option<Inode>, from: Inode): Option<Inode> {
    match cur
    case None => Some(from)
    case Some(i) => Some(WithTimes(i, from))
  }

  /** The file map after the `f_inodes` branch of `op`: None is the logic_error. */
  function MergeFiles(files: map<Ino, Option<Inode>>, op: Op): Option<map<Ino, Option<Inode>>> {
    match op
    case MkReg(_, _, f) =>
      if InoOf(f) in files && files[InoOf(f)].Some? then None else Some(files[InoOf(f) := Some(f)])
    case RmReg(_, _, f) =>
      if InoOf(f) in files && files[InoOf(f)].None? then None else Some(files[InoOf(f) := None])
    case MvReg(_, _, _, _, di) => if di == NIL_INO then Some(files) else Some(files[di := None])
    case ChReg(f) => Some(files[InoOf(f) := Some(f)])
    case _ => Some(files)
  }

  /** A transaction after `op` was tried on it, with the way the call ended. */
  function Merged(tx: Tx, op: Op): (m: Merge)
    ensures m.tx.dir == tx.dir && m.tx.committed == tx.committed
    ensures tx.committed ==> m == Merge(tx, Refused)
    ensures !m.outcome.Effective() ==> m.tx == tx
  {
    if tx.committed then Merge(tx, Refused)
    else match op
      case MkSelf(i) => Merge(tx.(self := Some(i), status := Created), Accepted)
      case RmSelf => Merge(tx.(status := Deleted), Accepted)
      case ChSelf(i) => Merge(tx.(self := Some(i)), Accepted)
      case ChReg(_) => Merge(tx.(files := MergeFiles(tx.files, op).value), Accepted)
      case _ =>
        match MergeEntries(tx.dentries, op)
        case None => Merge(tx, EntryError)
        case Some(marks) =>
          var half := tx.(dentries := marks, self := MergeSelf(tx.self, op.self));
          match MergeFiles(tx.files, op)
          case None => Merge(half, InodeError)
          case Some(files) => Merge(half.(files := files), Accepted)
  }

  /** What the store knows of a directory: no dentry object, a child list, or a thread killed by "Dentry Corrupted". */
  datatype Dir = Absent | Present(children: Children) | Corrupt

  /** A child list with every mark carried out. */
  function ApplyMarks(marks: map<Name, Mark>, c: Children): Children {
    map n | n in c.Keys + marks.Keys && (n in marks ==> marks[n].alive)
      :: if n in marks then marks[n].ino else c[n]
  }

  /** transaction::sync, on the dentry object. */
  function Sync(tx: Tx, d: Dir): Dir {
    match (d, tx.status)
    case (Corrupt, _) => Corrupt
    case (_, Deleted) => Absent
    case (_, Created) => Present(ApplyMarks(tx.dentries, map[]))
    case (Absent, Unchanged) => Corrupt
    case (Present(c), Unchanged) => Present(ApplyMarks(tx.dentries, c))
  }

  /** dentry::delete_child: erase the name if it is there. */
  function Without(c: Children, n: Name): Children {
    c - {n}
  }

  /** The meaning of one journalled operation on a directory, with no transaction in between. */
  function ApplyOp(op: Op, d: Dir): Dir {
    match (op, d)
    case (ChSelf(_), _) => d
    case (ChReg(_), _) => d
    case (_, Corrupt) => Corrupt
    case (MkSelf(_), _) => Present(map[])
    case (RmSelf, _) => Absent
    case (_, Absent) => Corrupt
    case (MkDir(_, n, i), Present(c)) => Present(c[n := i])
    case (MkReg(_, n, f), Present(c)) => Present(c[n := InoOf(f)])
    case (RmDir(_, n, _), Present(c)) => Present(Without(c, n))
    case (RmReg(_, n, _), Present(c)) => Present(Without(c, n))
    case (MvDir(_, src, si, dst, _), Present(c)) => Present(Without(c, src)[dst := si])
    case (MvReg(_, src, si, dst, _), Present(c)) => Present(Without(c, src)[dst := si])
  }

  function Fold(d: Dir, ops: seq<Op>): Dir {
    if ops == [] then d else ApplyOp(ops[|ops| - 1], Fold(d, ops[..|ops| - 1]))
  }

  /**
    The life cycle the file system keeps: a directory is created while it does not exist
    (fresh inode number), removed only when empty (-ENOTEMPTY otherwise), and its entries
    change only while it exists. Nothing is asked of the names.
   */
  predicate Legal(op: Op, d: Dir) {
    match op
    case MkSelf(_) => d.Absent?
    case RmSelf => d == Present(map[])
    case ChSelf(_) => true
    case ChReg(_) => true
    case _ => d.Present?
  }

  predicate LegalRun(d: Dir, ops: seq<Op>) {
    ops == [] || (LegalRun(d, ops[..|ops| - 1]) && Legal(ops[|ops| - 1], Fold(d, ops[..|ops| - 1])))
  }

  /** A transaction without any entry change and without mkself or rmself. */
  predicate Blank(tx: Tx) {
    tx.status == Unchanged && tx.dentries == map[]
  }

  /** The pending effect of a transaction: as long as it is open and blank, it may still become anything. */
  function Effect(tx: Tx, d: Dir): Dir {
    if !tx.committed && Blank(tx) then d else Sync(tx, d)
  }

  predicate Tidy(tx: Tx) {
    tx.status == Deleted ==> forall n :: n in tx.dentries ==> !tx.dentries[n].alive
  }
}

/** Coalescing preserves meaning. */
module Coalescing {
  import opened Types
  import opened Transactions

  lemma LegalNotCorrupt(d: Dir, ops: seq<Op>)
    requires LegalRun(d, ops) && d != Corrupt
    ensures Fold(d, ops) != Corrupt
  {
  }

  /** A name marked alive is in the directory the transaction makes. */
  lemma AliveMarkShows(tx: Tx, n: Name, b: Dir)
    requires n in tx.dentries && Effect(tx, b).Present?
    ensures tx.dentries[n].alive <==> n in Effect(tx, b).children
    ensures tx.dentries[n].alive ==> Effect(tx, b).children[n] == tx.dentries[n].ino
  {
  }

  lemma MergedEntries(tx: Tx, op: Op)
    requires op.OnEntries() && Merged(tx, op).outcome.Effective()
    ensures MergeEntries(tx.dentries, op).Some? && !tx.committed
    ensures Merged(tx, op).tx.dentries == MergeEntries(tx.dentries, op).value
    ensures Merged(tx, op).tx.status == tx.status && Merged(tx, op).tx.committed == tx.committed
    ensures Merged(tx, op).tx.dentries != map[]
  {
    var marks := Merged(tx, op).tx.dentries;
    match op {
      case MvDir(_, _, _, dst, _) => assert dst in marks;
      case MvReg(_, _, _, dst, _) => assert dst in marks;
      case MkDir(_, n, _) => assert n in marks;
      case RmDir(_, n, _) => assert n in marks;
      case MkReg(_, n, _) => assert n in marks;
      case RmReg(_, n, _) => assert n in marks;
    }
  }

  /** One accepted operation on the delta is one operation on the directory. */
  lemma MergeIsApply(tx: Tx, op: Op, b: Dir)
    requires b != Corrupt && Tidy(tx) && Legal(op, Effect(tx, b)) && Effect(tx, b) != Corrupt
    requires Merged(tx, op).outcome.Effective()
    ensures Effect(Merged(tx, op).tx, b) == ApplyOp(op, Effect(tx, b))
    ensures Tidy(Merged(tx, op).tx)
  {
    if op.OnEntries() {
      MergedEntries(tx, op);
      OpenEffect(tx, b);
      EntriesMergeIsApply(tx.dentries, op, if tx.status == Created then map[] else b.children);
    } else {
      SelfMergeIsApply(tx, op, b);
    }
  }

  /** An open transaction of an existing directory means its marks, blank or not. */
  lemma OpenEffect(tx: Tx, b: Dir)
    requires !tx.committed && Effect(tx, b).Present? && b != Corrupt
    ensures tx.status != Deleted && (tx.status == Unchanged ==> b.Present?)
    ensures Effect(tx, b) == Present(ApplyMarks(tx.dentries, if tx.status == Created then map[] else b.children))
  {
    if Blank(tx) { assert ApplyMarks(tx.dentries, b.children) == b.children; }
  }

  lemma SelfMergeIsApply(tx: Tx, op: Op, b: Dir)
    requires !op.OnEntries() && b != Corrupt && Tidy(tx) && Legal(op, Effect(tx, b)) && Effect(tx, b) != Corrupt
    requires Merged(tx, op).outcome.Effective()
    ensures Effect(Merged(tx, op).tx, b) == ApplyOp(op, Effect(tx, b))
    ensures Tidy(Merged(tx, op).tx)
  {
    match op {
      case RmSelf =>
        forall n | n in tx.dentries ensures !tx.dentries[n].alive {
          AliveMarkShows(tx, n, b);
        }
      case MkSelf(_) =>
        assert ApplyMarks(tx.dentries, map[]) == map[];
      case _ =>
    }
  }

  lemma AliveMark(marks: map<Name, Mark>, n: Name, i: Ino, c: Children)
    ensures ApplyMarks(marks[n := Mark(true, i)], c) == ApplyMarks(marks, c)[n := i]
  {
  }

  lemma DeadMark(marks: map<Name, Mark>, n: Name, i: Ino, c: Children)
    ensures ApplyMarks(marks[n := Mark(false, i)], c) == Without(ApplyMarks(marks, c), n)
  {
  }

  lemma EntriesMergeIsApply(marks: map<Name, Mark>, op: Op, c: Children)
    requires op.OnEntries() && MergeEntries(marks, op).Some?
    ensures Present(ApplyMarks(MergeEntries(marks, op).value, c)) == ApplyOp(op, Present(ApplyMarks(marks, c)))
  {
    match op {
      case MkDir(_, n, i) => AliveMark(marks, n, i, c);
      case MkReg(_, n, f) => AliveMark(marks, n, InoOf(f), c);
      case RmDir(_, n, i) => DeadMark(marks, n, i, c);
      case RmReg(_, n, f) => DeadMark(marks, n, InoOf(f), c);
      case MvDir(_, src, si, dst, _) =>
        DeadMark(marks, src, si, c);
        AliveMark(marks[src := Mark(false, si)], dst, si, c);
      case MvReg(_, src, si, dst, _) =>
        DeadMark(marks, src, si, c);
        AliveMark(marks[src := Mark(false, si)], dst, si, c);
    }
  }

  /** The transaction that results from trying `ops` in order on a fresh one. */
  function RunOps(dir: Ino, ops: seq<Op>): Tx {
    if ops == [] then NewTx(dir) else Merged(RunOps(dir, ops[..|ops| - 1]), ops[|ops| - 1]).tx
  }

  /** Every operation of `ops` changed the transaction it was tried on. */
  predicate AllEffective(dir: Ino, ops: seq<Op>) {
    ops == [] || (AllEffective(dir, ops[..|ops| - 1])
                  && Merged(RunOps(dir, ops[..|ops| - 1]), ops[|ops| - 1]).outcome.Effective())
  }

  /** Coalescing preserves meaning: one delta does what its operations do one by one. */
  lemma {:induction false} CoalescingPreservesMeaning(dir: Ino, ops: seq<Op>, b: Dir)
    requires b != Corrupt && AllEffective(dir, ops) && LegalRun(b, ops)
    ensures Effect(RunOps(dir, ops), b) == Fold(b, ops)
    ensures Tidy(RunOps(dir, ops))
  {
    if ops != [] {
      var rest := ops[..|ops| - 1];
      CoalescingPreservesMeaning(dir, rest, b);
      LegalNotCorrupt(b, rest);
      MergeIsApply(RunOps(dir, rest), ops[|ops| - 1], b);
    }
  }

  // ---- File inodes ----

  /** What an operation makes of file `i`: its inode, or Some(None) when it deletes it; None if it does not name it. */
  function Touch(op: Op, i: Ino): Option<Option<Inode>> {
    match op
    case MkReg(_, _, f) => if InoOf(f) == i then Some(Some(f)) else None
    case ChReg(f) => if InoOf(f) == i then Some(Some(f)) else None
    case RmReg(_, _, f) => if InoOf(f) == i then Some(None) else None
    case MvReg(_, _, _, _, di) => if di == i && i != NIL_INO then Some(None) else None
    case _ => None
  }

  /** What the last operation that names file `i` leaves of it. */
  function LastFile(ops: seq<Op>, i: Ino): Option<Option<Inode>> {
    if ops == [] then None
    else
      var last := Touch(ops[|ops| - 1], i);
      if last.Some? then last else LastFile(ops[..|ops| - 1], i)
  }

  function FileAt(files: map<Ino, Option<Inode>>, i: Ino): Option<Option<Inode>> {
    if i in files then Some(files[i]) else None
  }

  lemma OneFile(files: map<Ino, Option<Inode>>, op: Op, i: Ino)
    ensures MergeFiles(files, op).Some? ==>
      FileAt(MergeFiles(files, op).value, i) == if Touch(op, i).Some? then Touch(op, i) else FileAt(files, i)
  {
  }

  /** The one thing an operation makes of a file; a call that throws found it so already. */
  lemma ThrownFile(files: map<Ino, Option<Inode>>, op: Op, i: Ino)
    requires MergeFiles(files, op).None? && Touch(op, i).Some?
    ensures i in files && (files[i].Some? <==> Touch(op, i).value.Some?)
  {
  }

  lemma MergedFiles(tx: Tx, op: Op)
    requires Merged(tx, op).outcome.Effective()
    ensures Merged(tx, op).outcome == Accepted <==> MergeFiles(tx.files, op).Some?
    ensures Merged(tx, op).tx.files ==
      if MergeFiles(tx.files, op).Some? then MergeFiles(tx.files, op).value else tx.files
  {
  }

  /** Every operation of `ops` returned 0. */
  predicate AllAccepted(dir: Ino, ops: seq<Op>) {
    ops == [] || (AllAccepted(dir, ops[..|ops| - 1])
                  && Merged(RunOps(dir, ops[..|ops| - 1]), ops[|ops| - 1]).outcome == Accepted)
  }

  /** For each file the delta keeps exactly what the last operation on it left, and no other file. */
  lemma {:induction false} FilesAreLatest(dir: Ino, ops: seq<Op>, i: Ino)
    requires AllAccepted(dir, ops)
    ensures LastFile(ops, i) == FileAt(RunOps(dir, ops).files, i)
  {
    if ops != [] {
      var tx, op := RunOps(dir, ops[..|ops| - 1]), ops[|ops| - 1];
      FilesAreLatest(dir, ops[..|ops| - 1], i);
      MergedFiles(tx, op);
      OneFile(tx.files, op, i);
    }
  }

  /** Both name a file, or neither does, and with the same fate. */
  predicate SameFate(a: Option<Option<Inode>>, b: Option<Option<Inode>>) {
    (a.Some? <==> b.Some?) && (a.Some? ==> (a.value.Some? <==> b.value.Some?))
  }

  /** Calls that threw in between do not change which files are alive, deleted or not named. */
  lemma {:induction false} FateIsLatest(dir: Ino, ops: seq<Op>, i: Ino)
    requires AllEffective(dir, ops)
    ensures SameFate(LastFile(ops, i), FileAt(RunOps(dir, ops).files, i))
  {
    if ops != [] {
      var tx, op := RunOps(dir, ops[..|ops| - 1]), ops[|ops| - 1];
      FateIsLatest(dir, ops[..|ops| - 1], i);
      MergedFiles(tx, op);
      if MergeFiles(tx.files, op).Some? {
        OneFile(tx.files, op, i);
      } else if Touch(op, i).Some? {
        ThrownFile(tx.files, op, i);
      }
    }
  }

  /** mkreg of a file the transaction last left alive, or rmreg of one it last left deleted. */
  predicate Clashes(op: Op, ops: seq<Op>) {
    match op
    case MkReg(_, _, f) => LastFile(ops, InoOf(f)).Some? && LastFile(ops, InoOf(f)).value.Some?
    case RmReg(_, _, f) => LastFile(ops, InoOf(f)) == Some(None)
    case _ => false
  }

  /**
    When the `f_inodes` branch throws, for every operation on every transaction: exactly when the entry branch
    lets the call pass and the call clashes with the last operation on the same file in this transaction.
   */
  lemma ThrowsExactly(dir: Ino, ops: seq<Op>, op: Op)
    requires AllEffective(dir, ops)
    ensures Merged(RunOps(dir, ops), op).outcome == InodeError <==>
      MergeEntries(RunOps(dir, ops).dentries, op).Some? && Clashes(op, ops)
  {
    NeverCommitted(dir, ops);
    match op {
      case MkReg(_, _, f) => FateIsLatest(dir, ops, InoOf(f));
      case RmReg(_, _, f) => FateIsLatest(dir, ops, InoOf(f));
      case _ =>
    }
  }

  lemma {:induction false} NeverCommitted(dir: Ino, ops: seq<Op>)
    ensures !RunOps(dir, ops).committed && RunOps(dir, ops).dir == dir
  {
    if ops != [] { NeverCommitted(dir, ops[..|ops| - 1]); }
  }

  /**
    A write to a file reaches the journal of its new directory before the rename does: mkreg throws, its mark
    stays.
   */
  lemma ThrowsAfterTheMark(dir: Ino, self: Inode, name: Name, f: Inode)
    ensures AllAccepted(dir, [ChReg(f)])
    ensures var m := Merged(RunOps(dir, [ChReg(f)]), MkReg(self, name, f));
      m.outcome == InodeError && m.tx.dentries == map[name := Mark(true, InoOf(f))]
  {
    var ops := [ChReg(f)];
    assert ops[..|ops| - 1] == [] && ops[|ops| - 1] == ChReg(f);
    assert RunOps(dir, ops) == Merged(NewTx(dir), ChReg(f)).tx;
  }
}
