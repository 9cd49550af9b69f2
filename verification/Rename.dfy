/**
  Rename across directories: each parent is led here (LOCAL) or by another client (REMOTE), which the
  caller reaches by a request (client/fs_ops/fuse_ops.cpp, client/fs_ops/local_ops.cpp,
  client/rpc/rpc_server.cpp). A request that fails in its handler comes back as runtime_error.
 */
module Rename {
  import opened Types
  import opened Transactions
  import opened DentryCodec
  import opened Tenure
  import opened DentryTables
  import opened DirectoryCache
  import opened LocalOps

  // ---- An inode on the wire ----

  /** The fields a rename message carries; inode numbers travel as two 64-bit halves. */
  datatype Message = Message(ids: seq<byte>, prefix: nat, postfix: nat, rest: seq<byte>, link: seq<byte>)

  /** inode_to_rename_src_response and inode_to_rename_dst_request. */
  function Packed(i: Inode): Message {
    Message(i.core[..12], FromLe(i.core[12..20]), FromLe(i.core[20..28]), i.core[32..100], CString(i.link))
  }

  /** rename_src_response_to_inode and rename_dst_request_to_inode; `pad` is the padding of the new block. */
  function Unpacked(m: Message, pad: seq<byte>): Inode
    requires |m.ids| == 12 && |m.rest| == 68 && |pad| == 8
  {
    InodeBlock(m.ids + ToLe(m.prefix, 8) + ToLe(m.postfix, 8) + pad[..4] + m.rest + pad[4..], m.link)
  }

  /** Splitting an inode number into halves and splicing them gives the number back, and every field arrives. */
  lemma TransferKeepsInode(i: Inode, pad: seq<byte>)
    requires |pad| == 8
    ensures var j := Unpacked(Packed(i), pad);
      && InoOf(j) == InoOf(i) && j.core[..28] == i.core[..28] && j.core[32..100] == i.core[32..100]
      && (NulFree(i.link) ==> j.link == i.link)
  {
    var j, c := Unpacked(Packed(i), pad), i.core;
    if NulFree(i.link) { CStringWhole(i.link); }
    BytesRoundTrip(c[12..20]);
    BytesRoundTrip(c[20..28]);
    Spliced(c[..12], c[12..20], c[20..28], pad[..4], c[32..100], pad[4..], j.core);
    Rejoined(c);
    SliceOfSlice(j.core, 0, 28, 12, 28);
    SliceOfSlice(c, 0, 28, 12, 28);
    assert j.core[0..28] == j.core[..28] && c[0..28] == c[..28];
  }

  /** The named fields of a block that was put together. */
  lemma Spliced(
      ids: seq<byte>, lo: seq<byte>, hi: seq<byte>, p: seq<byte>, rest: seq<byte>, q: seq<byte>, core: seq<byte>)
    requires |ids| == 12 && |lo| == |hi| == 8 && |p| == |q| == 4 && |rest| == 68
    requires core == ids + lo + hi + p + rest + q
    ensures core[..28] == ids + lo + hi && core[32..100] == rest
  {
    assert core == (ids + lo + hi) + (p + rest + q);
    forall k | 0 <= k < 68 ensures core[32..100][k] == rest[k] {}
  }

  lemma Rejoined(c: seq<byte>)
    requires |c| >= 28
    ensures c[..12] + c[12..20] + c[20..28] == c[..28]
  {
  }

  // ---- The two halves ----

  /** The source half, at the source's leader: the name goes. */
  method TakeOut(src: DentryTable, log: Log, parent: Inode, from: Name, flags: nat)
      returns (target: Option<Inode>, ret: int)
    requires src.Coherent()
    modifies src, src.dentries, log
    ensures src.Coherent()
    ensures ret == if from !in old(src.childInodes) then -ENOENT else if flags != 0 then -ENOSYS else 0
    ensures ret != 0 ==>
      && src.View() == old(src.View()) && src.childInodes == old(src.childInodes)
      && log.calls == old(log.calls) && target == None
    ensures ret == 0 ==>
      var i := old(src.childInodes)[from];
      && target == Some(i) && src.childInodes == old(src.childInodes) - {from}
      && src.dentries.childList == Without(old(src.dentries.childList), from)
      && log.calls == old(log.calls) + On(src.dirIno, [RmReg(parent, from, i)])
      && Steps(old(src.View()), [RmReg(parent, from, i)], src.View())
  {
    var found := src.GetChildInode(from);
    if found.None? { return None, -ENOENT; }
    if flags != 0 { return None, -ENOSYS; }
    Drop(src, log, parent, from, found.value);
    return found, 0;
  }

  /** The destination half, at the destination's leader: the name is bound, replacing what was found under it. */
  method PutIn(dst: DentryTable, log: Log, parent: Inode, target: Inode, there: Ino, to: Name) returns (ret: int)
    requires dst.Coherent()
    requires there != NIL_INO <==> to == SLASH || to in dst.childInodes
    modifies dst, dst.dentries, log
    ensures dst.Coherent()
    ensures ret == if to == SLASH && to !in old(dst.childInodes) then -ENOENT else 0
    ensures ret != 0 ==>
      dst.View() == old(dst.View()) && dst.childInodes == old(dst.childInodes) && log.calls == old(log.calls)
    ensures ret == 0 ==>
      && dst.dentries.childList == old(dst.dentries.childList)[to := InoOf(target)]
      && dst.childInodes == old(dst.childInodes)[to := target]
    ensures ret == 0 ==>
      var was := old(dst.childInodes);
      var ops := (if to in was then [RmReg(parent, to, was[to])] else []) + [MkReg(parent, to, target)];
      log.calls == old(log.calls) + On(dst.dirIno, ops) && Steps(old(dst.View()), ops, dst.View())
  {
    if there != NIL_INO {
      var found := dst.GetChildInode(to);
      if found.None? { return -ENOENT; }
    }
    var replaced := Replace(dst, log, parent, to, there != NIL_INO);
    Add(dst, log, parent, to, target);
    PutCalls(dst.dirIno, parent, to, replaced, target);
    PutSteps(old(dst.View()), parent, to, replaced, target);
    ret := 0;
  }

  lemma PutCalls(dir: Ino, parent: Inode, to: Name, replaced: Option<Inode>, target: Inode)
    ensures On(dir, if replaced.Some? then [RmReg(parent, to, replaced.value)] else [])
      + On(dir, [MkReg(parent, to, target)])
      == On(dir, PutOps(parent, to, replaced, target))
  {
  }

  /**
    The inode's way from the source's leader to the destination's, once over the wire for each that is REMOTE:
    all of it arrives but the padding of the block.
   */
  method Travel(srcLoc: Loc, dstLoc: Loc, target: Inode, pad: seq<byte>) returns (moved: Inode)
    requires |pad| == 8
    ensures moved.core[..28] == target.core[..28] && moved.core[32..100] == target.core[32..100]
    ensures InoOf(moved) == InoOf(target) && (NulFree(target.link) ==> moved.link == target.link)
    ensures srcLoc == dstLoc == LOCAL ==> moved == target
  {
    moved := target;
    TransferKeepsInode(moved, pad);
    match (srcLoc, dstLoc) {
      case (LOCAL, LOCAL) =>
      case (LOCAL, REMOTE) => moved := Unpacked(Packed(moved), pad);
      case (REMOTE, LOCAL) => moved := Unpacked(Packed(moved), pad);
      case (REMOTE, REMOTE) =>
        moved := Unpacked(Packed(moved), pad);
        TransferKeepsInode(moved, pad);
        moved := Unpacked(Packed(moved), pad);
    }
  }

  /**
    rename for distinct parents. Wherever the two leaders are, a rename of a present name with no flags
    takes it out of the source, binds the new name to the same inode number in the destination, changes
    nothing else, and journals exactly these changes. A name that is missing or flags that are set change
    nothing; only the error for a missing name tells LOCAL from REMOTE. The one name that must not be used is
    "/", which counts as present without being in the table: the entry is taken out and not put in again.
    `moved` is the inode as it arrives.
   */
  method RenameAcross(
      srcLoc: Loc, dstLoc: Loc, src: DentryTable, dst: DentryTable, log: Log, srcParent: Inode, dstParent: Inode,
      from: Name, to: Name, flags: nat, pad: seq<byte>) returns (ret: int, moved: Option<Inode>)
    requires src.Coherent() && dst.Coherent() && src != dst && src.dentries != dst.dentries
    requires |pad| == 8
    requires forall n :: n in dst.dentries.childList ==> dst.dentries.childList[n] != NIL_INO
    modifies src, src.dentries, dst, dst.dentries, log
    ensures src.Coherent() && dst.Coherent()
    ensures from in old(src.childInodes) && flags == 0 ==>
      && src.dentries.childList == Without(old(src.dentries.childList), from)
      && src.childInodes == old(src.childInodes) - {from}
    ensures from in old(src.childInodes) && flags == 0 && (to != SLASH || to in old(dst.childInodes)) ==>
      && ret == 0
      && dst.dentries.childList == old(dst.dentries.childList)[to := old(src.dentries.childList)[from]]
    ensures from in old(src.childInodes) && flags == 0 && (to != SLASH || to in old(dst.childInodes)) ==>
      var gone := old(src.childInodes)[from];
      && moved.Some?
      && moved.value.core[..28] == gone.core[..28] && moved.value.core[32..100] == gone.core[32..100]
      && (NulFree(gone.link) ==> moved.value.link == gone.link)
      && dst.childInodes == old(dst.childInodes)[to := moved.value]
      && var was := old(dst.childInodes);
         var take := [RmReg(srcParent, from, gone)];
         var put := (if to in was then [RmReg(dstParent, to, was[to])] else []) + [MkReg(dstParent, to, moved.value)];
         && log.calls == old(log.calls) + On(src.dirIno, take) + On(dst.dirIno, put)
         && Steps(old(src.View()), take, src.View()) && Steps(old(dst.View()), put, dst.View())
    ensures from in old(src.childInodes) && flags == 0 && to == SLASH && to !in old(dst.childInodes) ==>
      && dst.View() == old(dst.View()) && dst.childInodes == old(dst.childInodes)
      && ret == if dstLoc == LOCAL then -ENOENT else -ENOSYS
    ensures !(from in old(src.childInodes) && flags == 0) ==>
      && src.View() == old(src.View()) && dst.View() == old(dst.View()) && log.calls == old(log.calls)
      && src.childInodes == old(src.childInodes) && dst.childInodes == old(dst.childInodes)
      && ret == if from !in old(src.childInodes) && srcLoc == LOCAL then -ENOENT else -ENOSYS
  {
    ghost var number := if from in src.childInodes then InoOf(src.childInodes[from]) else NIL_INO;
    var there := dst.CheckChildInode(to);
    assert there != NIL_INO <==> to == SLASH || to in dst.View().list;
    var taken, err := TakeOut(src, log, srcParent, from, flags);
    if err != 0 { return if err == -ENOENT && srcLoc == LOCAL then -ENOENT else -ENOSYS, None; }
    assert old(src.View()).list[from] == number;
    var target := taken.value;
    target := Travel(srcLoc, dstLoc, target, pad);
    moved := Some(target);
    ret := PutIn(dst, log, dstParent, target, there, to);
    if ret != 0 && dstLoc == REMOTE { ret := -ENOSYS; }
  }
}
