/** The in-memory table of a led directory (client/in_memory/dentry_table.cpp). */
module DentryTables {
  import opened Types
  import opened Transactions
  import opened DentryCodec
  import opened DentryObjects
  import opened Tenure

  /** The inode number of the root directory: nil plus one. */
  const ROOT_INO: Ino := [0, 0, 0, 0, 0, 0, 0, 0, 0, 0, 0, 0, 0, 0, 0, 1]

  /** The name "/". */
  const SLASH: Name := [47]

  function Numbers(inodes: map<Name, Inode>): map<Name, Ino> { map n | n in inodes :: InoOf(inodes[n]) }

  class DentryTable {
    const dirIno: Ino
    const dentries: Dentry
    var childInodes: map<Name, Inode>

    /** The table as a value. */
    ghost function View(): Table
      reads this, dentries
    {
      Table(Numbers(childInodes), dentries.childList)
    }

    /** Both halves of the table name the same children. */
    ghost predicate Coherent()
      reads this, dentries
    {
      View().inodes == View().list
    }

    /** The constructor for a directory made by this client. */
    constructor (d: Dentry)
      ensures dirIno == d.ino && dentries == d && childInodes == map[]
    {
      dirIno, dentries, childInodes := d.ino, d, map[];
    }

    method CreateChildInode(name: Name, i: Inode) returns (ret: int)
      modifies this, dentries
      ensures View() == WithChild(old(View()), name, InoOf(i))
      ensures childInodes == if name in old(childInodes) then old(childInodes) else old(childInodes)[name := i]
      ensures dentries.childList ==
        if name in old(childInodes) then old(dentries.childList) else old(dentries.childList)[name := InoOf(i)]
      ensures ret == if name in old(childInodes) then -1 else 0
    {
      if name in childInodes { return -1; }
      ghost var was := childInodes;
      childInodes := childInodes[name := i];
      dentries.AddChild(name, InoOf(i));
      assert Numbers(childInodes) == Numbers(was)[name := InoOf(i)];
      ret := 0;
    }

    method DeleteChildInode(name: Name) returns (ret: int)
      modifies this, dentries
      ensures View() == WithoutChild(old(View()), name) && childInodes == old(childInodes) - {name}
      ensures dentries.childList ==
        if name in old(childInodes) then old(dentries.childList) - {name} else old(dentries.childList)
      ensures ret == if name in old(childInodes) then 0 else -1
    {
      if name !in childInodes { return -1; }
      ghost var was := childInodes;
      childInodes := childInodes - {name};
      dentries.DeleteChild(name);
      assert Numbers(childInodes) == Numbers(was) - {name};
      ret := 0;
    }

    /** get_child_inode of a LOCAL table: None is no_entry. */
    method GetChildInode(name: Name) returns (r: Option<Inode>)
      ensures r == if name in childInodes then Some(childInodes[name]) else None
    {
      if name !in childInodes { return None; }
      r := Some(childInodes[name]);
    }

    /** check_child_inode of a LOCAL table. */
    method CheckChildInode(name: Name) returns (i: Ino)
      ensures i == if name == SLASH then ROOT_INO
                   else if name in dentries.childList then dentries.childList[name] else NIL_INO
    {
      if name == SLASH { return ROOT_INO; }
      i := dentries.GetChildIno(name);
    }

    /**
      The loop of pull_child_metadata over a loaded list, in any order: false is the no_entry of a child
      whose inode block is missing from `stored`.
     */
    method PullChildMetadata(stored: map<Ino, Inode>) returns (ok: bool)
      requires childInodes == map[] && forall i :: i in stored ==> InoOf(stored[i]) == i
      modifies this
      ensures ok <==> forall n :: n in dentries.childList ==> dentries.childList[n] in stored
      ensures ok ==> View() == Pulled(dentries.childList)
      ensures ok ==>
        && childInodes.Keys == dentries.childList.Keys
        && forall n :: n in dentries.childList ==> childInodes[n] == stored[dentries.childList[n]]
    {
      var list := dentries.childList;
      var todo := list.Keys;
      while todo != {}
        invariant todo <= list.Keys && childInodes.Keys == list.Keys - todo
        invariant forall n :: n in list && n !in todo ==> list[n] in stored && childInodes[n] == stored[list[n]]
      {
        var name :| name in todo;
        if list[name] !in stored { return false; }
        childInodes := childInodes[name := stored[list[name]]];
        todo := todo - {name};
      }
      assert Numbers(childInodes) == list;
      ok := true;
    }
  }
}

/** The file system operations of a directory's leader (client/fs_ops/local_ops.cpp, client/rpc/rpc_server.cpp). */
module LocalOps {
  import opened Types
  import opened Transactions
  import opened DentryObjects
  import opened Tenure
  import opened DentryTables
  import opened EntryMarks

  const ENOENT := 2
  const EEXIST := 17
  const ENOSYS := 38
  const ENOTEMPTY := 39

  datatype JournalCall = JournalCall(dir: Ino, op: Op)

  /** The journal calls made, in order. */
  class Log {
    var calls: seq<JournalCall>

    constructor ()
      ensures calls == []
    {
      calls := [];
    }

    method Append(dir: Ino, op: Op)
      modifies this
      ensures calls == old(calls) + [JournalCall(dir, op)]
    {
      calls := calls + [JournalCall(dir, op)];
    }
  }

  /**
    The table went from `t` to `t'` by the changes that go with `ops`, each creating an absent name or
    deleting a present one: these are Local steps of a tenure.
   */
  ghost predicate Steps(t: Table, ops: seq<Op>, t': Table)
    decreases |ops|
  {
    if ops == [] then t' == t
    else TableOp(ops[0]) && Sensible(ops[0], t.inodes) && Steps(Changed(t, ops[0]), ops[1..], t')
  }

  lemma {:induction false} FoldHead(d: Dir, op: Op, ops: seq<Op>)
    ensures Fold(d, [op] + ops) == Fold(ApplyOp(op, d), ops)
  {
    if ops == [] {
      assert [op] + ops == [op] && [op][..0] == [];
    } else {
      FoldHead(d, op, ops[..|ops| - 1]);
      assert ([op] + ops)[..|ops|] == [op] + ops[..|ops| - 1];
    }
  }

  /** Whatever steps an operation takes, the table ends up as the journalled operations say. */
  lemma {:induction false} StepsAreJournalled(t: Table, ops: seq<Op>, t': Table)
    requires t.inodes == t.list && Steps(t, ops, t')
    ensures t'.inodes == t'.list && Present(t'.list) == Fold(Present(t.list), ops)
    decreases |ops|
  {
    if ops != [] {
      TableFollowsJournal(t, ops[0]);
      StepsAreJournalled(Changed(t, ops[0]), ops[1..], t');
      FoldHead(Present(t.list), ops[0], ops[1..]);
      assert [ops[0]] + ops[1..] == ops;
    }
  }

  /** The calls that journal `ops` for `dir`, one each and in this order. */
  function On(dir: Ino, ops: seq<Op>): (calls: seq<JournalCall>)
    ensures |calls| == |ops| && forall k :: 0 <= k < |ops| ==> calls[k] == JournalCall(dir, ops[k])
  {
    seq(|ops|, k requires 0 <= k < |ops| => JournalCall(dir, ops[k]))
  }

  /** mkdir: the parent's half, the new directory's first journal call, and its empty dentry. */
  method Mkdir(table: DentryTable, log: Log, parent: Inode, name: Name, dir: Inode) returns (dentry: Dentry)
    requires table.Coherent()
    modifies table, table.dentries, log
    ensures table.Coherent() && fresh(dentry) && dentry.ino == InoOf(dir) && dentry.childList == map[]
    ensures log.calls == old(log.calls) +
      [JournalCall(table.dirIno, MkDir(parent, name, InoOf(dir))), JournalCall(InoOf(dir), MkSelf(dir))]
    ensures table.childInodes ==
      if name in old(table.childInodes) then old(table.childInodes) else old(table.childInodes)[name := dir]
    ensures name in old(table.childInodes) ==> table.View() == old(table.View())
    ensures name !in old(table.childInodes) ==>
      && table.dentries.childList == old(table.dentries.childList)[name := InoOf(dir)]
      && Steps(old(table.View()), [MkDir(parent, name, InoOf(dir))], table.View())
  {
    var _ := table.CreateChildInode(name, dir);
    log.Append(table.dirIno, MkDir(parent, name, InoOf(dir)));
    dentry := new Dentry(InoOf(dir));
    log.Append(InoOf(dir), MkSelf(dir));
  }

  method Create(table: DentryTable, log: Log, parent: Inode, name: Name, file: Inode)
    requires table.Coherent()
    modifies table, table.dentries, log
    ensures table.Coherent()
    ensures log.calls == old(log.calls) + On(table.dirIno, [MkReg(parent, name, file)])
    ensures table.childInodes ==
      if name in old(table.childInodes) then old(table.childInodes) else old(table.childInodes)[name := file]
    ensures name in old(table.childInodes) ==> table.View() == old(table.View())
    ensures name !in old(table.childInodes) ==>
      && table.dentries.childList == old(table.dentries.childList)[name := InoOf(file)]
      && Steps(old(table.View()), [MkReg(parent, name, file)], table.View())
  {
    var _ := table.CreateChildInode(name, file);
    log.Append(table.dirIno, MkReg(parent, name, file));
  }

  /** symlink checks first: an existing name changes nothing. */
  method Symlink(table: DentryTable, log: Log, parent: Inode, name: Name, link: Inode) returns (ret: int)
    requires table.Coherent() && forall n :: n in table.dentries.childList ==> table.dentries.childList[n] != NIL_INO
    modifies table, table.dentries, log
    ensures table.Coherent()
    ensures ret == if name == SLASH || name in old(table.dentries.childList) then -EEXIST else 0
    ensures ret != 0 ==>
      && table.View() == old(table.View()) && table.childInodes == old(table.childInodes)
      && log.calls == old(log.calls)
    ensures ret == 0 ==>
      && table.childInodes == old(table.childInodes)[name := link]
      && log.calls == old(log.calls) + On(table.dirIno, [MkReg(parent, name, link)])
      && table.dentries.childList == old(table.dentries.childList)[name := InoOf(link)]
      && Steps(old(table.View()), [MkReg(parent, name, link)], table.View())
  {
    var found := table.CheckChildInode(name);
    if found != NIL_INO { return -EEXIST; }
    var _ := table.CreateChildInode(name, link);
    log.Append(table.dirIno, MkReg(parent, name, link));
    ret := 0;
  }

  /** i_nlink, and an inode with another one. */
  function Nlink(i: Inode): nat { FromLe(i.core[32..40]) }
  function WithNlink(i: Inode, n: nat): Inode { InodeBlock(i.core[..32] + ToLe(n, 8) + i.core[40..], i.link) }

  /** get_nlink() - 1, unsigned. */
  function OneLess(n: nat): nat { (n + 0xFFFF_FFFF_FFFF_FFFF) % 0x1_0000_0000_0000_0000 }

  /**
    unlink: the last link takes the entry away; otherwise the link count drops, and the lowered inode is
    journalled for the directory `pIno` that the inode remembers as its parent.
   */
  method Unlink(table: DentryTable, log: Log, parent: Inode, name: Name, pIno: Ino) returns (ret: int)
    requires table.Coherent()
    modifies table, table.dentries, log
    ensures table.Coherent()
    ensures ret == if name in old(table.childInodes) then 0 else -ENOENT
    ensures ret != 0 ==>
      && table.View() == old(table.View()) && table.childInodes == old(table.childInodes)
      && log.calls == old(log.calls)
    ensures ret == 0 && FromLe(old(table.childInodes)[name].core[32..40]) == 1 ==>
      var i := old(table.childInodes)[name];
      && table.childInodes == old(table.childInodes) - {name}
      && log.calls == old(log.calls) + On(table.dirIno, [RmReg(parent, name, i)])
      && table.dentries.childList == Without(old(table.dentries.childList), name)
      && Steps(old(table.View()), [RmReg(parent, name, i)], table.View())
    ensures ret == 0 && FromLe(old(table.childInodes)[name].core[32..40]) != 1 ==>
      name in table.childInodes &&
      var i, lowered := old(table.childInodes)[name], table.childInodes[name];
      && lowered.core[..32] == i.core[..32] && lowered.core[40..] == i.core[40..] && lowered.link == i.link
      && FromLe(lowered.core[32..40]) ==
         (if FromLe(i.core[32..40]) == 0 then 0xFFFF_FFFF_FFFF_FFFF else FromLe(i.core[32..40]) - 1)
      && table.View() == old(table.View()) && table.childInodes == old(table.childInodes)[name := lowered]
      && log.calls == old(log.calls) + On(pIno, [ChReg(lowered)])
  {
    var target := table.GetChildInode(name);
    if target.None? { return -ENOENT; }
    var i := target.value;
    LastLink(i);
    if OneLess(Nlink(i)) == 0 {
      var _ := table.DeleteChildInode(name);
      log.Append(table.dirIno, RmReg(parent, name, i));
    } else {
      var lowered := WithNlink(i, OneLess(Nlink(i)));
      OnlyNlink(i, OneLess(Nlink(i)));
      ghost var was := table.childInodes;
      table.childInodes := table.childInodes[name := lowered];
      assert Numbers(table.childInodes) == Numbers(was);
      log.Append(pIno, ChReg(lowered));
    }
    ret := 0;
  }

  /** The count reaches zero exactly from one, and runs round below zero. */
  lemma LastLink(i: Inode)
    ensures OneLess(Nlink(i)) == if Nlink(i) == 0 then 0xFFFF_FFFF_FFFF_FFFF else Nlink(i) - 1
    ensures OneLess(Nlink(i)) < 0x1_0000_0000_0000_0000
  {
    EightBytes(i.core[32..40], 8);
  }

  lemma {:induction false} EightBytes(s: seq<byte>, n: nat)
    requires |s| == n
    ensures FromLe(s) < Pow256(n)
  {
    if s != [] { EightBytes(s[1..], n - 1); }
  }

  /** Another link count is read back, and every other field is as it was. */
  lemma OnlyNlink(i: Inode, n: nat)
    requires n < 0x1_0000_0000_0000_0000
    ensures var j := WithNlink(i, n);
      && FromLe(j.core[32..40]) == n && InoOf(j) == InoOf(i)
      && j.core[..32] == i.core[..32] && j.core[40..] == i.core[40..] && j.link == i.link
  {
    var j := WithNlink(i, n);
    assert j.core[..32] == i.core[..32] && j.core[32..40] == ToLe(n, 8);
    LeRoundTrip(n, 8);
    SliceOfSlice(j.core, 0, 32, 12, 28);
    SliceOfSlice(i.core, 0, 32, 12, 28);
    assert j.core[0..32] == j.core[..32] && i.core[0..32] == i.core[..32];
  }

  /** rmdir at the directory's own leader: refused unless empty. */
  method RmdirTop(table: DentryTable, log: Log) returns (ret: int)
    modifies log
    ensures ret == if |table.dentries.childList| > 0 then -ENOTEMPTY else 0
    ensures log.calls == if ret == 0 then old(log.calls) + On(table.dirIno, [RmSelf]) else old(log.calls)
    ensures ret == 0 ==> Legal(RmSelf, Present(table.dentries.childList))
  {
    if |table.dentries.childList| > 0 { return -ENOTEMPTY; }
    log.Append(table.dirIno, RmSelf);
    ret := 0;
  }

  /** rmdir at the parent's leader. */
  method RmdirDown(table: DentryTable, log: Log, parent: Inode, name: Name, target: Ino)
    requires table.Coherent()
    modifies table, table.dentries, log
    ensures table.Coherent()
    ensures log.calls == old(log.calls) + On(table.dirIno, [RmDir(parent, name, target)])
    ensures table.dentries.childList == Without(old(table.dentries.childList), name)
    ensures table.childInodes == old(table.childInodes) - {name}
    ensures name in old(table.childInodes) ==> Steps(old(table.View()), [RmDir(parent, name, target)], table.View())
  {
    var _ := table.DeleteChildInode(name);
    log.Append(table.dirIno, RmDir(parent, name, target));
  }

  // ---- Rename ----

  /** A table change and the journal call that goes with it. */
  method Drop(table: DentryTable, log: Log, parent: Inode, name: Name, i: Inode)
    modifies table, table.dentries, log
    ensures table.View() == Changed(old(table.View()), RmReg(parent, name, i))
    ensures table.childInodes == old(table.childInodes) - {name}
    ensures log.calls == old(log.calls) + On(table.dirIno, [RmReg(parent, name, i)])
  {
    var _ := table.DeleteChildInode(name);
    log.Append(table.dirIno, RmReg(parent, name, i));
  }

  method Add(table: DentryTable, log: Log, parent: Inode, name: Name, i: Inode)
    modifies table, table.dentries, log
    ensures table.View() == Changed(old(table.View()), MkReg(parent, name, i))
    ensures table.childInodes ==
      if name in old(table.childInodes) then old(table.childInodes) else old(table.childInodes)[name := i]
    ensures log.calls == old(log.calls) + On(table.dirIno, [MkReg(parent, name, i)])
  {
    var _ := table.CreateChildInode(name, i);
    log.Append(table.dirIno, MkReg(parent, name, i));
  }

  /** The journal calls that put `target` under a name, replacing what is there. */
  function PutOps(parent: Inode, to: Name, replaced: Option<Inode>, target: Inode): seq<Op> {
    (if replaced.Some? then [RmReg(parent, to, replaced.value)] else []) + [MkReg(parent, to, target)]
  }

  /** The same, with the removal of the old name in between. */
  function MoveOps(parent: Inode, from: Name, to: Name, replaced: Option<Inode>, target: Inode): seq<Op> {
    (if replaced.Some? then [RmReg(parent, to, replaced.value)] else []) +
    [RmReg(parent, from, target), MkReg(parent, to, target)]
  }

  function At(inodes: map<Name, Inode>, n: Name): Option<Inode> { if n in inodes then Some(inodes[n]) else None }

  lemma PutSteps(t: Table, parent: Inode, to: Name, replaced: Option<Inode>, target: Inode)
    requires t.inodes == t.list && (replaced.Some? <==> to in t.inodes)
    ensures var t' := WithChild(WithoutChild(t, to), to, InoOf(target));
      && Steps(t, PutOps(parent, to, replaced, target), t')
      && t'.list == t.list[to := InoOf(target)] && t'.inodes == t'.list
  {
    var t1 := WithoutChild(t, to);
    var put := [MkReg(parent, to, target)];
    assert Steps(t1, put, WithChild(t1, to, InoOf(target))) by { assert put[1..] == []; }
    if replaced.Some? {
      assert ([RmReg(parent, to, replaced.value)] + put)[1..] == put;
    } else {
      assert [] + put == put;
    }
  }

  lemma MoveSteps(t: Table, parent: Inode, from: Name, to: Name, replaced: Option<Inode>, target: Inode)
    requires t.inodes == t.list && (replaced.Some? <==> to in t.inodes) && from != to && from in t.inodes
    ensures var t' := WithChild(WithoutChild(WithoutChild(t, to), from), to, InoOf(target));
      Steps(t, MoveOps(parent, from, to, replaced, target), t')
      && t'.list == Without(t.list, from)[to := InoOf(target)] && t'.inodes == t'.list
  {
    var t1, t2 := WithoutChild(t, to), WithoutChild(WithoutChild(t, to), from);
    var put, move := [MkReg(parent, to, target)], [RmReg(parent, from, target), MkReg(parent, to, target)];
    assert Steps(t2, put, WithChild(t2, to, InoOf(target))) by { assert put[1..] == []; }
    assert Steps(t1, move, WithChild(t2, to, InoOf(target))) by { assert move[1..] == put; }
    if replaced.Some? {
      assert ([RmReg(parent, to, replaced.value)] + move)[1..] == move;
    } else {
      assert [] + move == move;
    }
  }

  /** The calls of the parts, made one after the other, are the calls of the whole. */
  lemma MoveCalls(dir: Ino, parent: Inode, from: Name, to: Name, replaced: Option<Inode>, target: Inode)
    ensures On(dir, if replaced.Some? then [RmReg(parent, to, replaced.value)] else [])
      + On(dir, [RmReg(parent, from, target)]) + On(dir, [MkReg(parent, to, target)])
      == On(dir, MoveOps(parent, from, to, replaced, target))
  {
  }

  lemma MoveInodes(was: map<Name, Inode>, from: Name, to: Name, target: Inode)
    ensures (was - {to} - {from})[to := target] == (was - {from})[to := target]
    ensures to !in was - {to} - {from}
  {
  }

  /** If something is under `to`, take it away. */
  method Replace(table: DentryTable, log: Log, parent: Inode, to: Name, there: bool) returns (replaced: Option<Inode>)
    requires there <==> to in table.childInodes
    modifies table, table.dentries, log
    ensures replaced == At(old(table.childInodes), to)
    ensures table.View() == WithoutChild(old(table.View()), to) && table.childInodes == old(table.childInodes) - {to}
    ensures log.calls == old(log.calls) +
      On(table.dirIno, if replaced.Some? then [RmReg(parent, to, replaced.value)] else [])
  {
    replaced := None;
    if there {
      replaced := table.GetChildInode(to);
      Drop(table, log, parent, to, replaced.value);
    }
  }

  /** The three table changes of a rename within one directory, each with its journal call. */
  method Move(table: DentryTable, log: Log, parent: Inode, from: Name, to: Name, target: Inode, there: bool)
      returns (replaced: Option<Inode>)
    requires there <==> to in table.childInodes
    modifies table, table.dentries, log
    ensures replaced == At(old(table.childInodes), to)
    ensures table.View() == WithChild(WithoutChild(WithoutChild(old(table.View()), to), from), to, InoOf(target))
    ensures table.childInodes == (old(table.childInodes) - {from})[to := target]
    ensures log.calls == old(log.calls) + On(table.dirIno, MoveOps(parent, from, to, replaced, target))
  {
    replaced := Replace(table, log, parent, to, there);
    Drop(table, log, parent, from, target);
    Add(table, log, parent, to, target);
    MoveCalls(table.dirIno, parent, from, to, replaced, target);
    MoveInodes(old(table.childInodes), from, to, target);
  }

  /** rename within one directory: the entry moves, an entry under the new name is replaced. */
  method RenameSameParent(table: DentryTable, log: Log, parent: Inode, from: Name, to: Name, flags: nat)
      returns (ret: int)
    requires table.Coherent() && from != to
    requires forall n :: n in table.dentries.childList ==> table.dentries.childList[n] != NIL_INO
    modifies table, table.dentries, log
    ensures table.Coherent()
    ensures ret ==
      if from !in old(table.childInodes) then -ENOENT
      else if flags != 0 then -ENOSYS
      else if to == SLASH && to !in old(table.childInodes) then -ENOENT
      else 0
    ensures ret != 0 ==>
      && table.View() == old(table.View()) && table.childInodes == old(table.childInodes)
      && log.calls == old(log.calls)
    ensures ret == 0 ==>
      var was := old(table.childInodes);
      var target := was[from];
      var ops := (if to in was then [RmReg(parent, to, was[to])] else [])
                 + [RmReg(parent, from, target), MkReg(parent, to, target)];
      && table.childInodes == (was - {from})[to := target]
      && table.dentries.childList == Without(old(table.dentries.childList), from)[to := InoOf(target)]
      && log.calls == old(log.calls) + On(table.dirIno, ops)
      && Steps(old(table.View()), ops, table.View())
  {
    var found := table.GetChildInode(from);
    if found.None? { return -ENOENT; }
    var target := found.value;
    var there := table.CheckChildInode(to);
    if flags != 0 { return -ENOSYS; }
    assert there != NIL_INO <==> to == SLASH || to in table.View().list;
    if there != NIL_INO {
      var replaced := table.GetChildInode(to);
      if replaced.None? { return -ENOENT; }
    }
    var replaced := Move(table, log, parent, from, to, target, there != NIL_INO);
    MoveSteps(old(table.View()), parent, from, to, replaced, target);
    ret := 0;
  }
}
