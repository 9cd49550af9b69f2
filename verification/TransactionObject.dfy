/** The transaction object (client/journal/transaction.cpp), changed in place under its mutex. */
module TransactionObjects {
  import opened Types
  import opened ObjectKeys
  import opened Striping
  import opened Rados
  import opened DentryCodec
  import opened DentryObjects
  import opened Transactions
  import opened Coalescing
  import opened RecordCodec

  /** Walking a hash map: every key once, in an order the caller cannot choose. */
  method Walk<K(==)>(keys: set<K>) returns (order: seq<K>)
    ensures Enumerates(order, keys)
  {
    order := [];
    var todo := keys;
    while todo != {}
      invariant todo <= keys && (forall n :: n in order <==> n in keys - todo)
      invariant forall k :: 0 <= k < |order| ==> order[k] in keys
      invariant forall j, k :: 0 <= j < k < |order| ==> order[j] != order[k]
    {
      var n :| n in todo;
      assert n !in order;
      order, todo := order + [n], todo - {n};
    }
  }

  /** Every file of the pool is laid out well. */
  ghost predicate Sound(objs: Objects) { forall f: FileId :: Striped(objs, f) }

  /** A file is as it was. */
  ghost predicate SameFile(objs: Objects, objs': Objects, f: FileId) {
    && Striped(objs, f) && Striped(objs', f)
    && Contents(objs', f) == Contents(objs, f) && Count(objs', f) == Count(objs, f)
  }

  /** Everything but inode blocks is as it was. */
  ghost predicate OnlyInodes(objs: Objects, objs': Objects) {
    Sound(objs') && forall f: FileId :: f.category != INODE ==> SameFile(objs, objs', f)
  }

  /** Everything but inode blocks and the dentry object of `dir` is as it was. */
  ghost predicate Keeps(objs: Objects, objs': Objects, dir: Ino) {
    Sound(objs') && forall f: FileId :: f.category != INODE && f != DentryFile(dir) ==> SameFile(objs, objs', f)
  }

  lemma StepSound(objs: Objects, objs': Objects, f: FileId)
    requires Sound(objs) && Striped(objs', f) && OnlyChanges(objs, objs', f)
    ensures Sound(objs') && forall g: FileId :: g != f ==> SameFile(objs, objs', g)
  {
    forall g: FileId | g != f ensures SameFile(objs, objs', g) { OthersKept(objs, objs', f, g); }
    forall g: FileId ensures Striped(objs', g) { assert g != f ==> SameFile(objs, objs', g); }
  }

  lemma StoredSame(objs: Objects, objs': Objects, d: Ino)
    requires SameFile(objs, objs', DentryFile(d))
    ensures StoredDir(objs', d) == StoredDir(objs, d)
  {
  }

  lemma StoredKept(objs: Objects, objs': Objects, dir: Ino, d: Ino)
    requires Keeps(objs, objs', dir) && d != dir
    ensures Striped(objs, DentryFile(d)) && Striped(objs', DentryFile(d)) && StoredDir(objs', d) == StoredDir(objs, d)
  {
    if DentryFile(d) == DentryFile(dir) { UuidTextInjective(d, dir); }
    assert SameFile(objs, objs', DentryFile(d));
    StoredSame(objs, objs', d);
  }

  /** Writing inode blocks before or after the dentry object makes no difference to it. */
  lemma InodesBefore(a: Objects, b: Objects, c: Objects, dir: Ino)
    requires OnlyInodes(a, b) && Keeps(b, c, dir)
    ensures Keeps(a, c, dir) && SameFile(a, b, DentryFile(dir)) && StoredDir(a, dir) == StoredDir(b, dir)
  {
    assert SameFile(a, b, DentryFile(dir));
    StoredSame(a, b, dir);
    forall f: FileId | f.category != INODE && f != DentryFile(dir) ensures SameFile(a, c, f) {
      assert SameFile(a, b, f) && SameFile(b, c, f);
    }
  }

  lemma InodesAfter(a: Objects, b: Objects, c: Objects, dir: Ino)
    requires Keeps(a, b, dir) && OnlyInodes(b, c)
    ensures Keeps(a, c, dir) && SameFile(b, c, DentryFile(dir)) && StoredDir(c, dir) == StoredDir(b, dir)
  {
    assert SameFile(b, c, DentryFile(dir));
    StoredSame(b, c, dir);
    forall f: FileId | f.category != INODE && f != DentryFile(dir) ensures SameFile(a, c, f) {
      assert SameFile(a, b, f) && SameFile(b, c, f);
    }
  }

  lemma OneInode(objs: Objects, objs': Objects, ino: Ino)
    requires Sound(objs) && Striped(objs', InodeFile(ino)) && OnlyChanges(objs, objs', InodeFile(ino))
    ensures OnlyInodes(objs, objs')
  {
    StepSound(objs, objs', InodeFile(ino));
  }

  lemma NoInode(objs: Objects)
    requires Sound(objs)
    ensures OnlyInodes(objs, objs)
  {
  }

  lemma MoreInodes(a: Objects, b: Objects, c: Objects)
    requires OnlyInodes(a, b) && OnlyInodes(b, c)
    ensures OnlyInodes(a, c)
  {
    forall f: FileId | f.category != INODE ensures SameFile(a, c, f) { assert SameFile(a, b, f) && SameFile(b, c, f); }
  }

  lemma OneDentry(objs: Objects, objs': Objects, dir: Ino)
    requires Sound(objs) && Striped(objs', DentryFile(dir)) && OnlyChanges(objs, objs', DentryFile(dir))
    ensures Keeps(objs, objs', dir) && Blocks(objs, objs', map[])
  {
    StepSound(objs, objs', DentryFile(dir));
  }

  // ---- Inode blocks ----

  /** The inode object of `j` now starts with the block and the link target of `i`. */
  ghost predicate Wrote(objs: Objects, objs': Objects, j: Ino, i: Inode) {
    && Striped(objs, InodeFile(j)) && Striped(objs', InodeFile(j))
    && Contents(objs', InodeFile(j)) == Blend(Contents(objs, InodeFile(j)), i.core + i.link, 0)
  }

  /** Read back, that object gives the block and the link target, whatever longer thing it held before. */
  lemma InodeReadBack(objs: Objects, objs': Objects, j: Ino, i: Inode)
    requires Wrote(objs, objs', j, i)
    ensures FlatRead(Contents(objs', InodeFile(j)), 0, INODE_CORE_SIZE) == i.core
    ensures FlatRead(Contents(objs', InodeFile(j)), INODE_CORE_SIZE, |i.link|) == i.link
  {
    ReadBack(Contents(objs, InodeFile(j)), i.core, i.link);
  }

  lemma ReadBack(was: seq<byte>, a: seq<byte>, b: seq<byte>)
    ensures var now := Blend(was, a + b, 0); FlatRead(now, 0, |a|) == a && FlatRead(now, |a|, |b|) == b
  {
  }

  ghost predicate Block(objs: Objects, objs': Objects, written: map<Ino, Inode>, j: Ino) {
    if j in written then Wrote(objs, objs', j, written[j]) else SameFile(objs, objs', InodeFile(j))
  }

  /** The inode objects of `written` were written, every other one is as it was. */
  ghost predicate Blocks(objs: Objects, objs': Objects, written: map<Ino, Inode>) {
    forall j: Ino :: Block(objs, objs', written, j)
  }

  lemma NoBlock(objs: Objects)
    requires Sound(objs)
    ensures Blocks(objs, objs, map[])
  {
  }

  lemma OneBlock(objs: Objects, objs': Objects, j: Ino, i: Inode)
    requires Sound(objs) && OnlyChanges(objs, objs', InodeFile(j)) && Wrote(objs, objs', j, i)
    ensures Blocks(objs, objs', map[j := i])
  {
    StepSound(objs, objs', InodeFile(j));
    forall k: Ino ensures Block(objs, objs', map[j := i], k) {
      if k != j && InodeFile(k) == InodeFile(j) { UuidTextInjective(k, j); }
    }
  }

  lemma BlocksJoin(a: Objects, b: Objects, c: Objects, first: map<Ino, Inode>, second: map<Ino, Inode>)
    requires Blocks(a, b, first) && Blocks(b, c, second) && first.Keys !! second.Keys
    ensures Blocks(a, c, first + second)
  {
    forall j: Ino ensures Block(a, c, first + second, j) {
      assert Block(a, b, first, j) && Block(b, c, second, j);
    }
  }

  /** What leaves the inode objects alone adds nothing. */
  lemma BlocksAround(a: Objects, b: Objects, c: Objects, written: map<Ino, Inode>)
    requires Blocks(a, b, written) && Blocks(b, c, map[])
    ensures Blocks(a, c, written)
  {
    BlocksJoin(a, b, c, written, map[]);
    assert written + map[] == written;
  }

  /** The files of a transaction that it did not delete, but for those in `todo`. */
  function LiveBut(files: map<Ino, Option<Inode>>, todo: set<Ino>): map<Ino, Inode> {
    map i | i in files && files[i].Some? && i !in todo :: files[i].value
  }

  lemma LiveNext(files: map<Ino, Option<Inode>>, todo: set<Ino>, i: Ino)
    requires i in todo && i in files
    ensures LiveBut(files, todo - {i}) ==
      if files[i].Some? then LiveBut(files, todo) + map[i := files[i].value] else LiveBut(files, todo)
  {
  }

  /** Every inode of a transaction is kept under its own number. */
  ghost predicate Keyed(dir: Ino, self: Option<Inode>, files: map<Ino, Option<Inode>>) {
    && (self.Some? ==> InoOf(self.value) == dir)
    && forall i :: i in files && files[i].Some? ==> InoOf(files[i].value) == i && i != dir
  }

  /** The inode object of `j` is gone, every other one is as it was. */
  lemma OneGone(objs: Objects, objs': Objects, j: Ino)
    requires Sound(objs) && Striped(objs', InodeFile(j)) && OnlyChanges(objs, objs', InodeFile(j))
    ensures forall k: Ino :: k != j ==> SameFile(objs, objs', InodeFile(k))
  {
    StepSound(objs, objs', InodeFile(j));
    forall k: Ino | k != j ensures SameFile(objs, objs', InodeFile(k)) {
      if InodeFile(k) == InodeFile(j) { UuidTextInjective(k, j); }
    }
  }

  /** A directory has neither an inode object nor a dentry object. */
  ghost predicate Gone(objs: Objects, dir: Ino) {
    forall k: nat :: ObjName(InodeFile(dir), k) !in objs && ObjName(DentryFile(dir), k) !in objs
  }

  /** What sync writes of the directory's own inode. */
  function SelfBlock(dir: Ino, self: Option<Inode>): map<Ino, Inode> {
    if self.Some? then map[dir := self.value] else map[]
  }

  /** A child list that fits its object whatever the order it is walked in. */
  ghost predicate FitsObject(c: Children) { forall order :: Enumerates(order, c.Keys) ==> Fits(order, c) }

  /** Whether a list fits does not depend on the order: its size is that of its names and twenty bytes for each. */
  lemma FitsAnyOrder(order: seq<Name>, c: Children)
    requires Enumerates(order, c.Keys)
    ensures FitsObject(c) <==> 8 + 20 * |order| + NameBytes(order) <= OBJ_SIZE && forall n :: n in c ==> NulFree(n)
  {
    forall other | Enumerates(other, c.Keys) ensures RawSize(other) == RawSize(order) {
      SameRoom(other, order, c.Keys);
    }
  }

  function Except(marks: map<Name, Mark>, todo: set<Name>): map<Name, Mark> {
    map n | n in marks && n !in todo :: marks[n]
  }

  lemma OneMark(marks: map<Name, Mark>, todo: set<Name>, name: Name, c: Children)
    requires name in todo && todo <= marks.Keys
    ensures ApplyMarks(Except(marks, todo - {name}), c) ==
      if marks[name].alive then ApplyMarks(Except(marks, todo), c)[name := marks[name].ino]
      else Without(ApplyMarks(Except(marks, todo), c), name)
  {
    assert Except(marks, todo - {name}) == Except(marks, todo)[name := marks[name]];
    AliveMark(Except(marks, todo), name, marks[name].ino, c);
    DeadMark(Except(marks, todo), name, marks[name].ino, c);
  }

  /** A loop that stopped with `end`, the map `value` and `rest` to read parsed what `p` says. */
  ghost predicate Ends<T(!new)>(p: Parsed<T>, end: Parsed<()>, value: T, rest: seq<byte>) {
    if end.Parsed? then p == Parsed(value, rest) else !p.Parsed? && Failure(p) == Failure(end)
  }

  /** How sync ends: done, "Dentry Corrupted", or a stored object that cannot be decoded. */
  datatype SyncEnd = Done | DentryCorrupted | Undecodable

  /**
    The dentry object went from `was` to `now`: a removed directory's is gone, a new directory's holds the marks
    carried out on an empty list, any other's the list it held with the marks carried out. The only failures are
    a directory that is not there and an object that cannot be decoded, and a new directory meets neither.
   */
  ghost predicate Carried(tx: Tx, was: Option<Dir>, end: SyncEnd, now: Option<Dir>) {
    match tx.status
    case Deleted => end == Done && now == Some(Absent)
    case Created => end == Done && Holding(ApplyMarks(tx.dentries, map[]), now)
    case Unchanged =>
      && (end == DentryCorrupted <==> was == Some(Absent)) && (end == Undecodable <==> was == None)
      && (end != Done ==> now == was)
      && (was.Some? && was.value.Present? ==> Holding(ApplyMarks(tx.dentries, was.value.children), now))
  }

  /** The object holds `list`, if one object can. */
  ghost predicate Holding(list: Children, now: Option<Dir>) { FitsObject(list) ==> now == Some(Present(list)) }

  /** This is what Transactions.Sync says of a directory whose object can be decoded. */
  lemma CarriedIsSync(tx: Tx, was: Dir, end: SyncEnd, now: Option<Dir>)
    requires Carried(tx, Some(was), end, now) && was != Corrupt
    ensures end == DentryCorrupted <==> Transactions.Sync(tx, was) == Corrupt
    ensures end == DentryCorrupted || end == Done
    ensures end == Done ==>
      var dir := Transactions.Sync(tx, was); (dir.Present? ==> FitsObject(dir.children)) ==> now == Some(dir)
  {
  }

  /** How commit ends: the logic_error is for a transaction committed before. */
  datatype CommitEnd = Committed | AlreadyCommitted

  class Transaction {
    const sIno: Ino
    var committed: bool
    var offset: nat
    var status: Status
    var sInode: Option<Inode>
    var dentries: map<Name, Mark>
    var fInodes: map<Ino, Option<Inode>>

    /** The transaction as a value. */
    function View(): Tx
      reads this
    {
      Tx(sIno, committed, status, sInode, dentries, fInodes)
    }

    constructor (ino: Ino)
      ensures sIno == ino && View() == NewTx(ino)
    {
      sIno, committed, status, sInode := ino, false, Unchanged, None;
      dentries, fInodes, offset := map[], map[], 0;
    }

    method MkSelf(self: Inode) returns (r: Outcome)
      modifies this
      ensures Merge(View(), r) == Merged(old(View()), Op.MkSelf(self)) && offset == old(offset)
    {
      if committed { return Refused; }
      sInode, status := Some(self), Created;
      r := Accepted;
    }

    method RmSelf() returns (r: Outcome)
      modifies this
      ensures Merge(View(), r) == Merged(old(View()), Op.RmSelf) && offset == old(offset)
    {
      if committed { return Refused; }
      status := Deleted;
      r := Accepted;
    }

    method ChSelf(self: Inode) returns (r: Outcome)
      modifies this
      ensures Merge(View(), r) == Merged(old(View()), Op.ChSelf(self)) && offset == old(offset)
    {
      if committed { return Refused; }
      sInode := Some(self);
      r := Accepted;
    }

    /** The branch all entry operations share: new times, or a copy of the inode. */
    method Touch(self: Inode)
      modifies this`sInode
      ensures sInode == MergeSelf(old(sInode), self)
    {
      if sInode.Some? {
        sInode := Some(WithTimes(sInode.value, self));
      } else {
        sInode := Some(self);
      }
    }

    method MkDir(self: Inode, name: Name, ino: Ino) returns (r: Outcome)
      modifies this
      ensures Merge(View(), r) == Merged(old(View()), Op.MkDir(self, name, ino)) && offset == old(offset)
    {
      if committed { return Refused; }
      if name !in dentries {
        dentries := dentries[name := Mark(true, ino)];
      } else if !dentries[name].alive {
        dentries := dentries[name := Mark(true, ino)];
      } else {
        return EntryError;
      }
      Touch(self);
      r := Accepted;
    }

    method RmDir(self: Inode, name: Name, ino: Ino) returns (r: Outcome)
      modifies this
      ensures Merge(View(), r) == Merged(old(View()), Op.RmDir(self, name, ino)) && offset == old(offset)
    {
      if committed { return Refused; }
      if name !in dentries {
        dentries := dentries[name := Mark(false, ino)];
      } else if dentries[name].alive {
        dentries := dentries[name := Mark(false, ino)];
      } else {
        return EntryError;
      }
      Touch(self);
      r := Accepted;
    }

    method MvDir(self: Inode, src: Name, srcIno: Ino, dst: Name, dstIno: Ino) returns (r: Outcome)
      modifies this
      ensures Merge(View(), r) == Merged(old(View()), Op.MvDir(self, src, srcIno, dst, dstIno)) && offset == old(offset)
    {
      if committed { return Refused; }
      if src in dentries && !dentries[src].alive { return EntryError; }
      dentries := dentries[src := Mark(false, srcIno)];
      dentries := dentries[dst := Mark(true, srcIno)];
      Touch(self);
      r := Accepted;
    }

    method MkReg(self: Inode, name: Name, file: Inode) returns (r: Outcome)
      modifies this
      ensures Merge(View(), r) == Merged(old(View()), Op.MkReg(self, name, file)) && offset == old(offset)
    {
      if committed { return Refused; }
      if name in dentries && dentries[name].alive { return EntryError; }
      dentries := dentries[name := Mark(true, InoOf(file))];
      Touch(self);
      if InoOf(file) in fInodes && fInodes[InoOf(file)].Some? { return InodeError; }
      fInodes := fInodes[InoOf(file) := Some(file)];
      r := Accepted;
    }

    method RmReg(self: Inode, name: Name, file: Inode) returns (r: Outcome)
      modifies this
      ensures Merge(View(), r) == Merged(old(View()), Op.RmReg(self, name, file)) && offset == old(offset)
    {
      if committed { return Refused; }
      if name in dentries && !dentries[name].alive { return EntryError; }
      dentries := dentries[name := Mark(false, InoOf(file))];
      Touch(self);
      if InoOf(file) in fInodes && fInodes[InoOf(file)].None? { return InodeError; }
      fInodes := fInodes[InoOf(file) := None];
      r := Accepted;
    }

    method MvReg(self: Inode, src: Name, srcIno: Ino, dst: Name, dstIno: Ino) returns (r: Outcome)
      modifies this
      ensures Merge(View(), r) == Merged(old(View()), Op.MvReg(self, src, srcIno, dst, dstIno)) && offset == old(offset)
    {
      if committed { return Refused; }
      if src in dentries && !dentries[src].alive { return EntryError; }
      dentries := dentries[src := Mark(false, srcIno)];
      dentries := dentries[dst := Mark(true, srcIno)];
      Touch(self);
      if dstIno != NIL_INO {
        fInodes := fInodes[dstIno := None];
      }
      r := Accepted;
    }

    method ChReg(file: Inode) returns (r: Outcome)
      modifies this
      ensures Merge(View(), r) == Merged(old(View()), Op.ChReg(file)) && offset == old(offset)
    {
      if committed { return Refused; }
      fInodes := fInodes[InoOf(file) := Some(file)];
      r := Accepted;
    }

    /** The loop of sync over the marks: in whatever order they come, the list ends up as ApplyMarks says. */
    method CarryOut(d: Dentry)
      modifies d
      ensures d.childList == ApplyMarks(dentries, old(d.childList))
    {
      ghost var start := d.childList;
      var todo := dentries.Keys;
      while todo != {}
        invariant todo <= dentries.Keys && d.childList == ApplyMarks(Except(dentries, todo), start)
      {
        var name :| name in todo;
        OneMark(dentries, todo, name, start);
        if dentries[name].alive {
          d.AddChild(name, dentries[name].ino);
        } else {
          d.DeleteChild(name);
        }
        todo := todo - {name};
      }
      assert Except(dentries, todo) == dentries;
    }

    /** inode::sync: block and link target are written at the start of the inode object. */
    method SyncInode(io: RadosIo, i: Inode)
      requires Sound(io.objs)
      modifies io
      ensures OnlyInodes(old(io.objs), io.objs) && Blocks(old(io.objs), io.objs, map[InoOf(i) := i])
      ensures Striped(io.objs, InodeFile(InoOf(i)))
      ensures Contents(io.objs, InodeFile(InoOf(i))) ==
        Blend(old(Contents(io.objs, InodeFile(InoOf(i)))), i.core + i.link, 0)
    {
      var _ := io.Write(InodeFile(InoOf(i)), i.core + i.link, 0);
      OneInode(old(io.objs), io.objs, InoOf(i));
      OneBlock(old(io.objs), io.objs, InoOf(i), i);
    }

    /** The last loop of sync, in any order: the live file inodes are written, each to its own object, and no other. */
    method SyncFiles(io: RadosIo)
      requires Sound(io.objs)
      modifies io
      ensures OnlyInodes(old(io.objs), io.objs)
      ensures Keyed(sIno, sInode, fInodes) ==> Blocks(old(io.objs), io.objs, LiveBut(fInodes, {}))
    {
      var todo := fInodes.Keys;
      NoInode(io.objs);
      NoBlock(io.objs);
      assert LiveBut(fInodes, todo) == map[];
      while todo != {}
        invariant todo <= fInodes.Keys && OnlyInodes(old(io.objs), io.objs)
        invariant Keyed(sIno, sInode, fInodes) ==> Blocks(old(io.objs), io.objs, LiveBut(fInodes, todo))
      {
        var ino :| ino in todo;
        SyncFile(io, old(io.objs), todo, ino);
        todo := todo - {ino};
      }
    }

    /** One turn of that loop. */
    method SyncFile(io: RadosIo, ghost start: Objects, ghost todo: set<Ino>, ino: Ino)
      requires ino in todo && ino in fInodes && OnlyInodes(start, io.objs)
      requires Keyed(sIno, sInode, fInodes) ==> Blocks(start, io.objs, LiveBut(fInodes, todo))
      modifies io
      ensures OnlyInodes(start, io.objs)
      ensures Keyed(sIno, sInode, fInodes) ==> Blocks(start, io.objs, LiveBut(fInodes, todo - {ino}))
    {
      ghost var mid := io.objs;
      LiveNext(fInodes, todo, ino);
      if fInodes[ino].Some? {
        SyncInode(io, fInodes[ino].value);
        MoreInodes(start, mid, io.objs);
        if Keyed(sIno, sInode, fInodes) {
          BlocksJoin(start, mid, io.objs, LiveBut(fInodes, todo), map[ino := fInodes[ino].value]);
        }
      }
    }

    /** The dentry constructor as sync calls it: a new directory starts empty, any other from its object. */
    method OpenDentry(io: RadosIo) returns (end: SyncEnd, d: Dentry)
      requires Striped(io.objs, DentryFile(sIno))
      ensures fresh(d) && d.ino == sIno
      ensures status == Created ==> end == Done && d.childList == map[]
      ensures status != Created ==>
        match StoredDir(io.objs, sIno)
        case None => end == Undecodable
        case Some(Present(c)) => end == Done && d.childList == c
        case Some(_) => end == DentryCorrupted
    {
      d := new Dentry(sIno);
      if status != Created {
        var loaded := Load(io, d);
        if loaded.Corrupted? { return DentryCorrupted, d; }
        if loaded.OutOfBounds? { return Undecodable, d; }
      }
      end := Done;
    }

    /** The directory's part of sync: load or start the list, carry out the marks, write it back. */
    method SyncDentry(io: RadosIo) returns (end: SyncEnd)
      requires Sound(io.objs) && status != Deleted
      modifies io
      ensures Keeps(old(io.objs), io.objs, sIno) && Blocks(old(io.objs), io.objs, map[])
      ensures Carried(View(), old(StoredDir(io.objs, sIno)), end, StoredDir(io.objs, sIno))
    {
      var d;
      end, d := OpenDentry(io);
      if end != Done {
        OneDentry(io.objs, io.objs, sIno);
        return;
      }
      Rewrite(io, d);
    }

    /** Carry out the marks on a loaded list and write it back. */
    method Rewrite(io: RadosIo, d: Dentry)
      requires Sound(io.objs) && d.ino == sIno
      modifies io, d
      ensures Keeps(old(io.objs), io.objs, sIno) && Blocks(old(io.objs), io.objs, map[])
      ensures var list := ApplyMarks(dentries, old(d.childList));
        FitsObject(list) ==> StoredDir(io.objs, sIno) == Some(Present(list))
    {
      CarryOut(d);
      var order := Walk(d.childList.Keys);
      d.Sync(io, order);
      OneDentry(old(io.objs), io.objs, sIno);
    }

    /** A removed directory: both its objects go. */
    method SyncDeleted(io: RadosIo)
      requires Sound(io.objs) && status == Deleted
      modifies io
      ensures Keeps(old(io.objs), io.objs, sIno) && StoredDir(io.objs, sIno) == Some(Absent)
      ensures Gone(io.objs, sIno)
      ensures forall j: Ino :: j != sIno ==> SameFile(old(io.objs), io.objs, InodeFile(j))
    {
      io.Remove(InodeFile(sIno));
      OneInode(old(io.objs), io.objs, sIno);
      ghost var mid := io.objs;
      OneGone(old(io.objs), io.objs, sIno);
      io.Remove(DentryFile(sIno));
      OneDentry(mid, io.objs, sIno);
      InodesBefore(old(io.objs), mid, io.objs, sIno);
      forall j: Ino | j != sIno ensures SameFile(old(io.objs), io.objs, InodeFile(j)) {
        assert Block(mid, io.objs, map[], j);
      }
    }

    /**
      sync: a removed directory loses both its objects. Otherwise the dentry object, whatever list it held, now
      holds that list, or an empty one for a new directory, with the marks carried out; the only failures are a
      directory that is not there and an object that cannot be decoded. The directory's inode is written in any
      case, the live file inodes unless sync failed, and nothing else.
     */
    method Sync(io: RadosIo) returns (end: SyncEnd)
      requires Sound(io.objs)
      modifies io
      ensures Keeps(old(io.objs), io.objs, sIno)
      ensures status == Deleted ==>
        && Gone(io.objs, sIno)
        && (forall j: Ino :: j != sIno ==> SameFile(old(io.objs), io.objs, InodeFile(j)))
      ensures status != Deleted && Keyed(sIno, sInode, fInodes) ==>
        Blocks(old(io.objs), io.objs,
               if end == Done then SelfBlock(sIno, sInode) + LiveBut(fInodes, {}) else SelfBlock(sIno, sInode))
      ensures Carried(View(), old(StoredDir(io.objs, sIno)), end, StoredDir(io.objs, sIno))
    {
      if status == Deleted {
        SyncDeleted(io);
        return Done;
      }
      SyncSelf(io);
      ghost var mid := io.objs;
      end := SyncDentry(io);
      InodesBefore(old(io.objs), mid, io.objs, sIno);
      ghost var done := io.objs;
      if Keyed(sIno, sInode, fInodes) { BlocksAround(old(io.objs), mid, done, SelfBlock(sIno, sInode)); }
      if end == Done {
        SyncFiles(io);
        InodesAfter(old(io.objs), done, io.objs, sIno);
        if Keyed(sIno, sInode, fInodes) {
          BlocksJoin(old(io.objs), done, io.objs, SelfBlock(sIno, sInode), LiveBut(fInodes, {}));
        }
      }
    }

    /** The first part of sync: the directory's own inode. */
    method SyncSelf(io: RadosIo)
      requires Sound(io.objs)
      modifies io
      ensures OnlyInodes(old(io.objs), io.objs)
      ensures Keyed(sIno, sInode, fInodes) ==> Blocks(old(io.objs), io.objs, SelfBlock(sIno, sInode))
    {
      NoInode(io.objs);
      NoBlock(io.objs);
      if sInode.Some? { SyncInode(io, sInode.value); }
    }

    /** serialize, for some order of each map. */
    method Serialize() returns (vec: seq<byte>)
      ensures IsRecord(vec, View())
    {
      vec := [0, 0, 0, 0];
      vec := vec + [1];
      vec := vec + SelfBytes(sInode);
      var marks, names := WriteMarks();
      vec := vec + marks + [255];
      var files, inos := WriteFiles();
      vec := vec + files + END;
      PushedTail([0, 0, 0, 0], SelfBytes(sInode), marks, files, vec);
      PartsAreRecord(vec[4..], |vec|, SelfBytes(sInode), marks, files, names, inos, View());
      vec := ToLe(|vec|, 4) + vec[4..];
    }

    method WriteMarks() returns (vec: seq<byte>, order: seq<Name>)
      ensures Enumerates(order, dentries.Keys) && vec == MarksBytes(order, dentries)
    {
      order := Walk(dentries.Keys);
      vec := [];
      for k := 0 to |order|
        invariant vec == MarksBytes(order[..k], dentries)
      {
        assert order[..k + 1][..k] == order[..k];
        vec := vec + MarkBytes(order[k], dentries[order[k]]);
      }
      assert order[..|order|] == order;
    }

    method WriteFiles() returns (vec: seq<byte>, order: seq<Ino>)
      ensures Enumerates(order, fInodes.Keys) && vec == FilesBytes(order, fInodes)
    {
      order := Walk(fInodes.Keys);
      vec := [];
      for k := 0 to |order|
        invariant vec == FilesBytes(order[..k], fInodes)
      {
        assert order[..k + 1][..k] == order[..k];
        if fInodes[order[k]].Some? {
          vec := vec + InodeBytes(fInodes[order[k]].value);
        }
      }
      assert order[..|order|] == order;
    }

    /** The first loop of deserialize, from `start`, into an empty map. */
    method ReadMarks(raw: seq<byte>, start: nat) returns (end: Parsed<()>, index: nat)
      requires start <= |raw| && dentries == map[]
      modifies this`dentries
      ensures index <= |raw| && Ends(ParseMarks(raw[start..], map[]), end, dentries, raw[index..])
    {
      index := start;
      while true
        invariant start <= index <= |raw| && ParseMarks(raw[index..], dentries) == ParseMarks(raw[start..], map[])
        decreases |raw| - index
      {
        var h := HeadOf(raw[index..]);
        MarksFrom(raw, index, dentries, h);
        match h
        case Short => return Overrun, index;
        case Ending => return Parsed((), []), index + 1;
        case Entry(name, mark, size) =>
          if name in dentries { return Duplicate, index; }
          dentries, index := dentries[name := mark], index + size;
      }
    }

    /** The second loop of deserialize. */
    method ReadFiles(raw: seq<byte>, start: nat) returns (end: Parsed<()>, index: nat)
      requires start <= |raw| && fInodes == map[]
      modifies this`fInodes
      ensures index <= |raw| && Ends(ParseFiles(raw[start..], map[]), end, fInodes, raw[index..])
    {
      index := start;
      while true
        invariant start <= index <= |raw| && ParseFiles(raw[index..], fInodes) == ParseFiles(raw[start..], map[])
        decreases |raw| - index
      {
        var h := FileHeadOf(raw[index..]);
        FilesFrom(raw, index, fInodes, h);
        match h
        case Few => return Overrun, index;
        case NoMore => return Parsed((), []), index + 4;
        case File(i, size) =>
          if IsLink(i.core) { return FromStore, index; }
          if InoOf(i) in fInodes { return Duplicate, index; }
          fInodes, index := fInodes[InoOf(i) := Some(i)], index + size;
      }
    }

    /** deserialize, into a fresh transaction. */
    method Deserialize(raw: seq<byte>) returns (end: RecordEnd)
      requires dentries == map[] && fInodes == map[] && sInode == None
      modifies this
      ensures end == ParseRecord(raw)
      ensures end == NotValid <==> |raw| >= 5 && raw[4] == 0
      ensures end.Restored? ==> sInode == end.self && dentries == end.dentries && fInodes == end.files
    {
      if |raw| < 5 { return RecordEnd.OutOfBounds; }
      if raw[4] == 0 { return NotValid; }
      if |raw| < 9 { return RecordEnd.OutOfBounds; }
      var index := 9;
      if raw[5..9] != END {
        if |raw| < 9 + SIZEOF_INODE { return RecordEnd.OutOfBounds; }
        var i := InodeBlock(raw[9..9 + INODE_CORE_SIZE], []);
        if IsLink(i.core) { return LinkInStore; }
        sInode := Some(i);
        index := 9 + SIZEOF_INODE;
      }
      var marks, at := ReadMarks(raw, index);
      if !marks.Parsed? { return Failure(marks); }
      var files, _ := ReadFiles(raw, at);
      if !files.Parsed? { return Failure(files); }
      end := Restored(sInode, dentries, fInodes);
    }

    /** commit: freeze, then append the record at the end of the journal and remember where. */
    method Commit(io: RadosIo) returns (end: CommitEnd, raw: seq<byte>)
      requires Sound(io.objs)
      modifies this, io
      ensures Sound(io.objs) && View() == old(View()).(committed := true)
      ensures end == AlreadyCommitted <==> old(committed)
      ensures end == AlreadyCommitted ==> io.objs == old(io.objs) && offset == old(offset)
      ensures end == Committed ==>
        && IsRecord(raw, View()) && offset == |old(Contents(io.objs, JournalFile(sIno)))|
        && Contents(io.objs, JournalFile(sIno)) == Blend(old(Contents(io.objs, JournalFile(sIno))), raw, offset)
        && OnlyChanges(old(io.objs), io.objs, JournalFile(sIno))
    {
      if committed { return AlreadyCommitted, []; }
      committed := true;
      raw := Serialize();
      var _, size := io.Stat(JournalFile(sIno));
      var _ := io.Write(JournalFile(sIno), raw, size);
      StepSound(old(io.objs), io.objs, JournalFile(sIno));
      offset := size;
      end := Committed;
    }

    /** checkpoint: sync, then write a zero byte where the record starts. */
    method Checkpoint(io: RadosIo) returns (end: SyncEnd)
      requires Sound(io.objs)
      modifies io
      ensures Sound(io.objs)
      ensures forall d: Ino :: d != sIno ==> StoredDir(io.objs, d) == old(StoredDir(io.objs, d))
      ensures Carried(View(), old(StoredDir(io.objs, sIno)), end, StoredDir(io.objs, sIno))
      ensures status == Deleted ==>
        && Gone(io.objs, sIno)
        && (forall j: Ino :: j != sIno ==> SameFile(old(io.objs), io.objs, InodeFile(j)))
      ensures status != Deleted && Keyed(sIno, sInode, fInodes) ==>
        Blocks(old(io.objs), io.objs,
               if end == Done then SelfBlock(sIno, sInode) + LiveBut(fInodes, {}) else SelfBlock(sIno, sInode))
      ensures Contents(io.objs, JournalFile(sIno)) ==
        if end == Done then Blend(old(Contents(io.objs, JournalFile(sIno))), [0], offset)
        else old(Contents(io.objs, JournalFile(sIno)))
    {
      end := Sync(io);
      assert SameFile(old(io.objs), io.objs, JournalFile(sIno));
      ghost var mid := io.objs;
      if end == Done { ClearRecord(io); }
      if status == Deleted {
        SameAround(old(io.objs), mid, io.objs, sIno);
      } else if Keyed(sIno, sInode, fInodes) && end == Done {
        BlocksAround(old(io.objs), mid, io.objs, SelfBlock(sIno, sInode) + LiveBut(fInodes, {}));
      }
      forall d: Ino | d != sIno ensures StoredDir(io.objs, d) == old(StoredDir(io.objs, d)) {
        StoredKept(old(io.objs), mid, sIno, d);
      }
    }

    /** The end of checkpoint: one zero byte where the record starts. */
    method ClearRecord(io: RadosIo)
      requires Sound(io.objs)
      modifies io
      ensures Sound(io.objs) && Blocks(old(io.objs), io.objs, map[])
      ensures forall d: Ino :: StoredDir(io.objs, d) == old(StoredDir(io.objs, d))
      ensures forall d: Ino :: Gone(old(io.objs), d) ==> Gone(io.objs, d)
      ensures Contents(io.objs, JournalFile(sIno)) == Blend(old(Contents(io.objs, JournalFile(sIno))), [0], offset)
    {
      var _ := io.Write(JournalFile(sIno), [0], offset);
      StepSound(old(io.objs), io.objs, JournalFile(sIno));
      JournalOnly(old(io.objs), io.objs, sIno);
      JournalBlocks(old(io.objs), io.objs, sIno);
    }
  }

  /** Writing to a journal leaves every inode object as it was, and no object of another kind appears. */
  lemma JournalBlocks(objs: Objects, objs': Objects, j: Ino)
    requires Sound(objs) && Striped(objs', JournalFile(j)) && OnlyChanges(objs, objs', JournalFile(j))
    ensures Blocks(objs, objs', map[]) && forall d: Ino :: Gone(objs, d) ==> Gone(objs', d)
  {
    StepSound(objs, objs', JournalFile(j));
    forall k: Ino ensures Block(objs, objs', map[], k) {}
  }

  lemma SameAround(a: Objects, b: Objects, c: Objects, d: Ino)
    requires (forall j: Ino :: j != d ==> SameFile(a, b, InodeFile(j))) && Blocks(b, c, map[])
    ensures forall j: Ino :: j != d ==> SameFile(a, c, InodeFile(j))
  {
    forall j: Ino | j != d ensures SameFile(a, c, InodeFile(j)) { assert Block(b, c, map[], j); }
  }

  /** Writing to a journal leaves every directory as it was. */
  lemma JournalOnly(objs: Objects, objs': Objects, j: Ino)
    requires Sound(objs) && Sound(objs')
    requires objs' == objs || forall f: FileId :: f != JournalFile(j) ==> SameFile(objs, objs', f)
    ensures forall d: Ino :: StoredDir(objs', d) == StoredDir(objs, d)
  {
    forall d: Ino ensures StoredDir(objs', d) == StoredDir(objs, d) {
      if objs' != objs { StoredSame(objs, objs', d); }
    }
  }
}
