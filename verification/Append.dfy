/** Writes to one file by its leader and by others (local_write, rpc_write): who writes where. */
module Append {
  import opened Types
  import opened ObjectKeys
  import opened Striping
  import opened Rados

  /** The leader's inode of the file; its mutex makes each method below one step. */
  class FileInode {
    const file: FileId
    var size: nat

    constructor (f: FileId, n: nat)
      ensures file == f && size == n
    {
      file, size := f, n;
    }

    /**
      rpc_write: the range is reserved here, the bytes are written by the caller later. O_APPEND ignores the
      given offset. The inode is journalled exactly when the file grows.
     */
    method RpcWrite(offset: nat, len: nat, append: bool) returns (start: nat, journalled: bool)
      modifies this
      ensures (append ==> start == old(size)) && (!append ==> start == offset)
      ensures old(size) <= size && start + len <= size && (size == old(size) || size == start + len)
      ensures journalled <==> size > old(size)
    {
      start, journalled := offset, false;
      if append { start := size; }
      if size < start + len {
        size := start + len;
        journalled := true;
      }
    }

    /** local_write: range and bytes in one step. */
    method LocalWrite(io: RadosIo, buffer: seq<byte>, offset: nat, append: bool)
        returns (written: nat, journalled: bool)
      requires Striped(io.objs, file)
      modifies this, io
      ensures written == |buffer| && Striped(io.objs, file) && OnlyChanges(old(io.objs), io.objs, file)
      ensures append ==>
        && Contents(io.objs, file) == Blend(old(Contents(io.objs, file)), buffer, old(size))
        && size == old(size) + |buffer|
      ensures !append ==>
        && Contents(io.objs, file) == Blend(old(Contents(io.objs, file)), buffer, offset)
        && size == Max(old(size), offset + |buffer|)
      ensures journalled <==> size > old(size)
    {
      var start := offset;
      journalled := false;
      if append { start := size; }
      written := io.Write(file, buffer, start);
      if size < start + |buffer| {
        size := start + |buffer|;
        journalled := true;
      }
    }
  }

  /** Where a write goes: O_APPEND ignores the given offset. */
  function Place(size: nat, offset: nat, append: bool): nat { if append then size else offset }

  /** A reserved range, the offset asked for, its bytes, and whether they are in the store yet. */
  datatype Write = Write(start: nat, asked: nat, data: seq<byte>, append: bool, done: bool) {
    function End(): nat { start + |data| }
  }

  /** `base` is the file at the start; `contents` the flat file behind the store. */
  datatype State = State(base: seq<byte>, size: nat, contents: seq<byte>, writes: seq<Write>)

  predicate Init(s: State) { s.contents == s.base && s.size == |s.base| && s.writes == [] }

  /** A reservation at the leader, or the store write that belongs to an earlier one, in any order. */
  datatype Event = Reserve(data: seq<byte>, offset: nat, append: bool) | Carry(k: nat)

  predicate Enabled(s: State, e: Event) { e.Carry? ==> e.k < |s.writes| && !s.writes[e.k].done }

  function Do(s: State, e: Event): State
    requires Enabled(s, e)
  {
    match e
    case Reserve(data, offset, append) =>
      var w := Write(Place(s.size, offset, append), offset, data, append, false);
      s.(size := Max(s.size, w.End()), writes := s.writes + [w])
    case Carry(k) =>
      s.(contents := Blend(s.contents, s.writes[k].data, s.writes[k].start),
         writes := s.writes[k := s.writes[k].(done := true)])
  }

  predicate Reaches(s0: State, events: seq<Event>, s: State)
    decreases |events|
  {
    if events == [] then s == s0
    else Enabled(s0, events[0]) && Reaches(Do(s0, events[0]), events[1..], s)
  }

  // ---- Reservations ----

  /** The end of the file as it is or as it is going to be: the largest end of any range. */
  function Top(n: nat, writes: seq<Write>): nat {
    if writes == [] then n else Max(Top(n, writes[..|writes| - 1]), writes[|writes| - 1].End())
  }

  /** Write `k` starts at the end of everything before it, or where its caller asked. */
  ghost predicate WellPlaced(n: nat, writes: seq<Write>, k: nat)
    requires k < |writes|
  {
    writes[k].start == if writes[k].append then Top(n, writes[..k]) else writes[k].asked
  }

  ghost predicate Reserved(s: State) {
    && s.size == Top(|s.base|, s.writes)
    && forall k: nat {:trigger WellPlaced(|s.base|, s.writes, k)} ::
         k < |s.writes| ==> WellPlaced(|s.base|, s.writes, k)
  }

  lemma ReserveReserves(s: State, data: seq<byte>, offset: nat, append: bool)
    requires Reserved(s)
    ensures Reserved(Do(s, Reserve(data, offset, append)))
  {
    var s' := Do(s, Reserve(data, offset, append));
    assert s'.writes[..|s.writes|] == s.writes;
    forall k: nat | k < |s'.writes| ensures WellPlaced(|s.base|, s'.writes, k) {
      if k < |s.writes| {
        assert WellPlaced(|s.base|, s.writes, k);
        assert s'.writes[..k] == s.writes[..k];
      }
    }
  }

  lemma {:induction false} TopDone(n: nat, writes: seq<Write>, k: nat)
    requires k < |writes|
    ensures Top(n, writes[k := writes[k].(done := true)]) == Top(n, writes)
  {
    var init, after := writes[..|writes| - 1], writes[k := writes[k].(done := true)];
    if k < |writes| - 1 {
      TopDone(n, init, k);
      assert after[..|writes| - 1] == init[k := writes[k].(done := true)];
    } else {
      assert after[..|writes| - 1] == init;
    }
  }

  lemma CarryReserves(s: State, k: nat)
    requires Reserved(s) && Enabled(s, Carry(k))
    ensures Reserved(Do(s, Carry(k)))
  {
    var after := Do(s, Carry(k)).writes;
    TopDone(|s.base|, s.writes, k);
    forall j: nat | j < |after| ensures WellPlaced(|s.base|, after, j) {
      assert WellPlaced(|s.base|, s.writes, j);
      if k < j {
        TopDone(|s.base|, s.writes[..j], k);
        assert after[..j] == s.writes[..j][k := s.writes[k].(done := true)];
      } else {
        assert after[..j] == s.writes[..j];
      }
    }
  }

  lemma {:induction false} RunReserved(s0: State, events: seq<Event>, s: State)
    requires Reserved(s0) && Reaches(s0, events, s)
    ensures Reserved(s) && s.base == s0.base
    decreases |events|
  {
    if events != [] {
      match events[0] {
        case Reserve(data, offset, append) => ReserveReserves(s0, data, offset, append);
        case Carry(k) => CarryReserves(s0, k);
      }
      RunReserved(Do(s0, events[0]), events[1..], s);
    }
  }

  lemma {:induction false} TopCovers(n: nat, writes: seq<Write>, j: nat)
    requires j < |writes|
    ensures n <= Top(n, writes) && writes[j].End() <= Top(n, writes)
  {
    if j < |writes| - 1 { TopCovers(n, writes[..|writes| - 1], j); } else { TopAbove(n, writes); }
  }

  lemma {:induction false} TopAbove(n: nat, writes: seq<Write>)
    ensures n <= Top(n, writes)
  {
    if writes != [] { TopAbove(n, writes[..|writes| - 1]); }
  }

  /**
    Where every range is, however local and remote writes interleave: an append starts exactly at the end of
    the file as all ranges reserved before it make it, any other write at the offset it asked for; and the
    file's size is the end of its last byte, written or still to come.
   */
  lemma RangesPlaced(s0: State, events: seq<Event>, s: State, k: nat)
    requires Init(s0) && Reaches(s0, events, s) && k < |s.writes|
    ensures s.writes[k].append ==> s.writes[k].start == Top(|s0.base|, s.writes[..k])
    ensures !s.writes[k].append ==> s.writes[k].start == s.writes[k].asked
    ensures s.size == Top(|s0.base|, s.writes)
  {
    RunReserved(s0, events, s);
    assert WellPlaced(|s.base|, s.writes, k);
  }

  /**
    However local and remote writes interleave, an append starts at or after the end of every range
    reserved before it; so append ranges never overlap.
   */
  lemma AppendsAreApart(s0: State, events: seq<Event>, s: State, j: nat, k: nat)
    requires Init(s0) && Reaches(s0, events, s) && j < k < |s.writes|
    ensures s.writes[k].append ==> s.writes[j].End() <= s.writes[k].start
  {
    RangesPlaced(s0, events, s, k);
    if s.writes[k].append { TopCovers(|s0.base|, s.writes[..k], j); }
  }

  // ---- What lands in the store ----

  predicate Apart(v: Write, w: Write) { v.End() <= w.start || w.End() <= v.start }

  /** Nobody else reserved bytes of write `k`. */
  ghost predicate Alone(writes: seq<Write>, k: nat)
    requires k < |writes|
  {
    forall j :: 0 <= j < |writes| && j != k ==> Apart(writes[j], writes[k])
  }

  /** The bytes of write `k` are in its range. */
  predicate Landed(contents: seq<byte>, w: Write) {
    w.End() <= |contents| && contents[w.start..w.End()] == w.data
  }

  ghost predicate AloneLanded(contents: seq<byte>, writes: seq<Write>) {
    forall k :: 0 <= k < |writes| && writes[k].done && Alone(writes, k) ==> Landed(contents, writes[k])
  }

  lemma ReserveLands(contents: seq<byte>, writes: seq<Write>, w: Write)
    requires AloneLanded(contents, writes) && !w.done
    ensures AloneLanded(contents, writes + [w])
  {
    var after := writes + [w];
    forall k | 0 <= k < |after| && after[k].done && Alone(after, k) ensures Landed(contents, after[k]) {
      assert forall j :: 0 <= j < |writes| ==> after[j] == writes[j];
      assert Alone(writes, k);
    }
  }

  lemma CarryLands(contents: seq<byte>, writes: seq<Write>, i: nat)
    requires AloneLanded(contents, writes) && i < |writes|
    ensures AloneLanded(Blend(contents, writes[i].data, writes[i].start), writes[i := writes[i].(done := true)])
  {
    var w, after := writes[i], writes[i := writes[i].(done := true)];
    var contents' := Blend(contents, w.data, w.start);
    BlendThere(contents, w.data, w.start);
    forall k | 0 <= k < |after| && after[k].done && Alone(after, k) ensures Landed(contents', after[k]) {
      if k != i {
        assert Apart(after[i], after[k]);
        assert Alone(writes, k) by {
          forall j | 0 <= j < |writes| && j != k ensures Apart(writes[j], writes[k]) {
            assert Apart(after[j], after[k]);
          }
        }
        BlendApart(contents, w.data, w.start, after[k].start, after[k].End());
      }
    }
  }

  lemma {:induction false} RunLands(s0: State, events: seq<Event>, s: State)
    requires AloneLanded(s0.contents, s0.writes) && Reaches(s0, events, s)
    ensures AloneLanded(s.contents, s.writes)
    decreases |events|
  {
    if events != [] {
      match events[0] {
        case Reserve(data, offset, append) =>
          ReserveLands(s0.contents, s0.writes, Do(s0, events[0]).writes[|s0.writes|]);
        case Carry(k) => CarryLands(s0.contents, s0.writes, k);
      }
      RunLands(Do(s0, events[0]), events[1..], s);
    }
  }

  /**
    A store write that was carried out and whose range nobody else reserved has its bytes in the file, in every
    run and whatever the order of the store writes.
   */
  lemma CarriedBytesStay(s0: State, events: seq<Event>, s: State, k: nat)
    requires Init(s0) && Reaches(s0, events, s) && k < |s.writes| && s.writes[k].done
    requires forall j :: 0 <= j < |s.writes| && j != k ==>
      s.writes[j].End() <= s.writes[k].start || s.writes[k].End() <= s.writes[j].start
    ensures s.writes[k].End() <= |s.contents|
    ensures s.contents[s.writes[k].start..s.writes[k].End()] == s.writes[k].data
  {
    RunLands(s0, events, s);
    assert Alone(s.writes, k) by {
      forall j | 0 <= j < |s.writes| && j != k ensures Apart(s.writes[j], s.writes[k]) {}
    }
  }

  // ---- Runs of appends alone ----

  predicate OnlyAppends(events: seq<Event>) { forall i :: 0 <= i < |events| && events[i].Reserve? ==> events[i].append }

  function Concat(writes: seq<Write>): seq<byte> {
    if writes == [] then [] else Concat(writes[..|writes| - 1]) + writes[|writes| - 1].data
  }

  /** The ranges tile the growth of the file. */
  ghost predicate Tiles(base: seq<byte>, size: nat, writes: seq<Write>) {
    && size == |base| + |Concat(writes)|
    && forall k :: 0 <= k < |writes| ==> writes[k].start == |base| + |Concat(writes[..k])|
  }

  /** What is written stays written. */
  ghost predicate Kept(base: seq<byte>, contents: seq<byte>, writes: seq<Write>) {
    && |base| <= |contents| && contents[..|base|] == base
    && forall k :: 0 <= k < |writes| && writes[k].done ==>
         writes[k].End() <= |contents| && contents[writes[k].start..writes[k].End()] == writes[k].data
  }

  ghost predicate Inv(s: State) {
    Tiles(s.base, s.size, s.writes) && Kept(s.base, s.contents, s.writes) && |s.contents| <= s.size
  }

  lemma ReserveKeeps(s: State, data: seq<byte>, offset: nat)
    requires Inv(s)
    ensures Inv(Do(s, Reserve(data, offset, true)))
  {
    var s' := Do(s, Reserve(data, offset, true));
    assert s'.writes[..|s.writes|] == s.writes;
    forall k | 0 <= k < |s'.writes| ensures s'.writes[k].start == |s.base| + |Concat(s'.writes[..k])| {
      if k < |s.writes| { assert s'.writes[..k] == s.writes[..k]; }
    }
  }

  lemma {:induction false} ConcatDone(writes: seq<Write>, k: nat)
    requires k < |writes|
    ensures Concat(writes[k := writes[k].(done := true)]) == Concat(writes)
  {
    var init, after := writes[..|writes| - 1], writes[k := writes[k].(done := true)];
    if k < |writes| - 1 {
      ConcatDone(init, k);
      assert after[..|writes| - 1] == init[k := writes[k].(done := true)];
    } else {
      assert after[..|writes| - 1] == init;
    }
  }

  lemma {:induction false} ConcatGrows(writes: seq<Write>, j: nat, k: nat)
    requires j <= k <= |writes|
    ensures |Concat(writes[..j])| + (if j < k then |writes[j].data| else 0) <= |Concat(writes[..k])|
  {
    if j < k {
      ConcatGrows(writes, j, k - 1);
      assert writes[..k][..k - 1] == writes[..k - 1];
    }
  }

  lemma TilesDone(s: State, k: nat)
    requires Tiles(s.base, s.size, s.writes) && k < |s.writes|
    ensures Tiles(s.base, s.size, s.writes[k := s.writes[k].(done := true)]) && s.writes[k].End() <= s.size
  {
    var after := s.writes[k := s.writes[k].(done := true)];
    ConcatDone(s.writes, k);
    ConcatGrows(s.writes, k, |s.writes|);
    assert s.writes[..|s.writes|] == s.writes;
    forall j | 0 <= j < |after| ensures after[j].start == |s.base| + |Concat(after[..j])| {
      if k < j {
        ConcatDone(s.writes[..j], k);
        assert after[..j] == s.writes[..j][k := s.writes[k].(done := true)];
      } else {
        assert after[..j] == s.writes[..j];
      }
    }
  }

  /** A write outside [a, b) leaves those bytes as they are. */
  lemma BlendApart(c: seq<byte>, data: seq<byte>, offset: nat, a: nat, b: nat)
    requires a <= b <= |c| && (b <= offset || offset + |data| <= a)
    ensures b <= |Blend(c, data, offset)| && Blend(c, data, offset)[a..b] == c[a..b]
  {
    var left, right := Blend(c, data, offset)[a..b], c[a..b];
    forall i | 0 <= i < b - a ensures left[i] == right[i] {}
  }

  lemma BlendThere(c: seq<byte>, data: seq<byte>, offset: nat)
    ensures offset + |data| <= |Blend(c, data, offset)| <= Max(|c|, offset + |data|)
    ensures Blend(c, data, offset)[offset..offset + |data|] == data
  {
  }

  lemma CarryKeeps(s: State, k: nat)
    requires Inv(s) && Enabled(s, Carry(k))
    ensures Inv(Do(s, Carry(k)))
  {
    var s', w := Do(s, Carry(k)), s.writes[k];
    TilesDone(s, k);
    BlendThere(s.contents, w.data, w.start);
    BlendApart(s.contents, w.data, w.start, 0, |s.base|);
    forall j | 0 <= j < |s'.writes| && s'.writes[j].done
      ensures s'.writes[j].End() <= |s'.contents|
      ensures s'.contents[s'.writes[j].start..s'.writes[j].End()] == s'.writes[j].data
    {
      if j != k {
        var v := s.writes[j];
        if j < k { ConcatGrows(s.writes, j, k); } else { ConcatGrows(s.writes, k, j); }
        BlendApart(s.contents, w.data, w.start, v.start, v.End());
      }
    }
  }

  lemma {:induction false} RunKeeps(s0: State, events: seq<Event>, s: State)
    requires Inv(s0) && Reaches(s0, events, s) && OnlyAppends(events)
    ensures Inv(s) && s.base == s0.base
    decreases |events|
  {
    if events != [] {
      match events[0] {
        case Reserve(data, offset, append) =>
          assert append;
          ReserveKeeps(s0, data, offset);
        case Carry(k) => CarryKeeps(s0, k);
      }
      forall i | 0 <= i < |events[1..]| && events[1..][i].Reserve? ensures events[1..][i].append {
        assert events[1..][i] == events[i + 1];
      }
      RunKeeps(Do(s0, events[0]), events[1..], s);
    }
  }

  /** Write `k` is in the file, right behind the ones before it. */
  ghost predicate Placed(base: seq<byte>, contents: seq<byte>, writes: seq<Write>, k: nat)
    requires k < |writes|
  {
    var before, data := Concat(writes[..k]), writes[k].data;
    && |base| + |before| + |data| <= |contents|
    && contents[|base| + |before|..|base| + |before| + |data|] == data
    && Concat(writes[..k + 1]) == before + data
  }

  lemma IsPlaced(s: State, k: nat)
    requires Inv(s) && k < |s.writes| && s.writes[k].done
    ensures Placed(s.base, s.contents, s.writes, k)
  {
    assert s.writes[..k + 1][..k] == s.writes[..k];
    assert s.writes[k].start == |s.base| + |Concat(s.writes[..k])|;
  }

  /** The file starts with `base` and then `more`. */
  ghost predicate StartsWith(contents: seq<byte>, base: seq<byte>, more: seq<byte>) {
    |base| + |more| <= |contents| && contents[..|base| + |more|] == base + more
  }

  lemma Extended(c: seq<byte>, base: seq<byte>, before: seq<byte>, data: seq<byte>, both: seq<byte>)
    requires StartsWith(c, base, before) && |base| + |before| + |data| <= |c| && both == before + data
    requires c[|base| + |before|..|base| + |before| + |data|] == data
    ensures StartsWith(c, base, both)
  {
    var m, e := |base| + |before|, |base| + |before| + |data|;
    assert c[..e] == c[..m] + c[m..e];
    assert base + (before + data) == (base + before) + data;
  }

  lemma {:induction false} PrefixWritten(base: seq<byte>, contents: seq<byte>, writes: seq<Write>, k: nat)
    requires k <= |writes| && StartsWith(contents, base, [])
    requires forall j: nat {:trigger Placed(base, contents, writes, j)} ::
      j < |writes| ==> Placed(base, contents, writes, j)
    ensures StartsWith(contents, base, Concat(writes[..k]))
  {
    if k > 0 {
      var n := k - 1;
      PrefixWritten(base, contents, writes, n);
      assert Placed(base, contents, writes, n);
      Extended(contents, base, Concat(writes[..n]), writes[n].data, Concat(writes[..n + 1]));
    } else {
      assert writes[..0] == [];
    }
  }

  /**
    A run of appends alone tiles the growth of the file, and once every store write has been carried out,
    in whatever order, the file is what it was followed by the appended data in the order of reservation.
   */
  lemma AppendsTile(s0: State, events: seq<Event>, s: State)
    requires Init(s0) && Reaches(s0, events, s) && OnlyAppends(events)
    ensures s.size == |s0.base| + |Concat(s.writes)|
    ensures forall k :: 0 <= k < |s.writes| ==> s.writes[k].start == |s0.base| + |Concat(s.writes[..k])|
    ensures (forall k :: 0 <= k < |s.writes| ==> s.writes[k].done) ==> s.contents == s0.base + Concat(s.writes)
  {
    RunKeeps(s0, events, s);
    if forall k :: 0 <= k < |s.writes| ==> s.writes[k].done { AllWritten(s); }
  }

  lemma AllWritten(s: State)
    requires Inv(s) && forall k :: 0 <= k < |s.writes| ==> s.writes[k].done
    ensures s.contents == s.base + Concat(s.writes)
  {
    forall j: nat | j < |s.writes| ensures Placed(s.base, s.contents, s.writes, j) { IsPlaced(s, j); }
    assert s.base + [] == s.base;
    PrefixWritten(s.base, s.contents, s.writes, |s.writes|);
    assert s.writes[..|s.writes|] == s.writes;
    assert s.contents[..|s.contents|] == s.contents;
  }
}
