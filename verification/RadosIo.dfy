/** The store operations over fixed-size objects (lib/rados_io/rados_io.cpp). */
module Rados {
  import opened Types
  import opened ObjectKeys
  import opened Striping

  /** How a read ends: with a byte count, or with no_such_object carrying the bytes read so far. */
  datatype ReadEnd = Returned(count: nat) | NoSuchObject(count: nat)

  class RadosIo {
    /** The objects of the pool. The per-object primitives below are those of librados. */
    var objs: Objects

    constructor ()
      ensures objs == map[]
    {
      objs := map[];
    }

    /** write_obj: the object is created or extended as needed. */
    method WriteObj(key: ObjName, value: seq<byte>, offset: nat)
      modifies this
      ensures objs == old(objs)[key := Blend(ObjectAt(old(objs), key), value, offset)]
    {
      objs := objs[key := Blend(if key in objs then objs[key] else [], value, offset)];
    }

    /** One object write of a cursor loop: bytes i..j of `v`, which go to one object. */
    method Put(
        f: FileId, v: seq<byte>, cursor: nat, i: nat, j: nat, ghost start: Objects, ghost b: seq<byte>,
        ghost offset: nat, ghost n: nat)
      returns (ghost n': nat)
      requires offset <= |b| && i < j <= |v| && cursor == offset + i && cursor % OBJ_SIZE + (j - i) <= OBJ_SIZE
      requires Progress(start, objs, f, b, v, offset, i, n)
      modifies this
      ensures Progress(start, objs, f, b, v, offset, j, n')
    {
      ghost var before := objs;
      WriteObj(ObjName(f, cursor / OBJ_SIZE), v[i..j], cursor % OBJ_SIZE);
      NextPiece(start, before, f, b, v, offset, i, j, cursor, n, objs);
      n' := Max(n, cursor / OBJ_SIZE + 1);
    }

    /** The cursor loop of write, and of zerofill with a buffer of zeros. */
    method WriteLoop(f: FileId, value: seq<byte>, offset: nat) returns (sum: nat)
      requires Striped(objs, f) && offset <= |Contents(objs, f)|
      modifies this
      ensures sum == |value|
      ensures Striped(objs, f) && Contents(objs, f) == Blend(old(Contents(objs, f)), value, offset)
      ensures OnlyChanges(old(objs), objs, f)
    {
      ghost var b, n := Contents(objs, f), Count(objs, f);
      var cursor, stop := offset, offset + |value|;
      sum := 0;
      LaysChosen(objs, f);
      Started(objs, f, b, value, offset, n);
      while cursor < stop
        invariant offset <= cursor && sum == Min(cursor, stop) - offset
        invariant Progress(old(objs), objs, f, b, value, offset, sum, n)
        decreases stop - cursor
      {
        var upto := TurnEnd(cursor, stop);
        n := Put(f, value, cursor, sum, upto - offset, old(objs), b, offset, n);
        sum := upto - offset;
        cursor := Bound(cursor);
      }
      Finished(old(objs), objs, f, b, value, offset, n);
    }

    method Zerofill(f: FileId, len: nat, offset: nat)
      requires Striped(objs, f) && offset <= |Contents(objs, f)|
      modifies this
      ensures Striped(objs, f) && Contents(objs, f) == Blend(old(Contents(objs, f)), Zeros(len), offset)
      ensures OnlyChanges(old(objs), objs, f)
    {
      var _ := WriteLoop(f, Zeros(len), offset);
    }

    /**
      The backward scan that write and truncate start with: the end of the highest object at or
      below the offset. Below the offset this bound is the file size itself.
     */
    method LowerBound(f: FileId, offset: nat) returns (found: bool, lb: nat)
      requires Striped(objs, f)
      ensures !found ==> Count(objs, f) == 0 && Contents(objs, f) == []
      ensures found ==> Count(objs, f) > 0
      ensures found && lb < offset ==> lb == |Contents(objs, f)|
      ensures found && offset <= lb ==> offset <= |Contents(objs, f)|
    {
      ghost var b, n := Contents(objs, f), Count(objs, f);
      var k: int := offset / OBJ_SIZE;
      while k >= 0
        invariant -1 <= k <= offset / OBJ_SIZE
        invariant forall j: nat :: k < j <= offset / OBJ_SIZE ==> ObjName(f, j) !in objs
      {
        if ObjName(f, k) in objs {
          assert objs[ObjName(f, k)] == Stripe(b, k);
          assert k < offset / OBJ_SIZE ==> ObjName(f, k + 1) !in objs;
          return true, k * OBJ_SIZE + |objs[ObjName(f, k)]|;
        }
        k := k - 1;
      }
      assert ObjName(f, 0) !in objs;
      return false, 0;
    }

    /** Striped write refines the flat write: zero-pad to the offset, then overwrite. */
    method Write(f: FileId, value: seq<byte>, offset: nat) returns (sum: nat)
      requires Striped(objs, f)
      modifies this
      ensures sum == |value|
      ensures Striped(objs, f) && Contents(objs, f) == Blend(old(Contents(objs, f)), value, offset)
      ensures OnlyChanges(old(objs), objs, f)
    {
      ghost var was := Contents(objs, f);
      FillHole(f, offset);
      PadThenWrite(was, value, offset);
      sum := WriteLoop(f, value, offset);
    }

    /** The first half of write: a file that ends below the offset is padded up to it. */
    method FillHole(f: FileId, offset: nat)
      requires Striped(objs, f)
      modifies this
      ensures Striped(objs, f) && Contents(objs, f) == Padded(old(Contents(objs, f)), offset)
      ensures OnlyChanges(old(objs), objs, f)
    {
      ghost var was := Contents(objs, f);
      var found, lb := LowerBound(f, offset);
      if !found { lb := 0; }
      if lb < offset {
        ZerosAtEnd(was, offset);
        Zerofill(f, offset - lb, lb);
      }
    }

    /** Striped truncate refines the flat one: cut, or zero-extended, to the length. */
    method Truncate(f: FileId, size: nat)
      requires Striped(objs, f)
      modifies this
      ensures Striped(objs, f) && Contents(objs, f) == Resized(old(Contents(objs, f)), size)
      ensures OnlyChanges(old(objs), objs, f)
    {
      var found, lb := LowerBound(f, size);
      if !found {
        Zerofill(f, size, 0);
        return;
      }
      if lb < size {
        Zerofill(f, size - lb, lb);
        return;
      }
      CutTo(f, size);
    }

    /** The second half of truncate: cut the object at the length, then remove the ones above it. */
    method CutTo(f: FileId, size: nat)
      requires Striped(objs, f) && size <= |Contents(objs, f)|
      modifies this
      ensures Striped(objs, f) && Contents(objs, f) == Contents(old(objs), f)[..size]
      ensures OnlyChanges(old(objs), objs, f)
    {
      ghost var b := Contents(objs, f);
      ghost var n := Count(objs, f);
      LaysChosen(objs, f);
      var num := size / OBJ_SIZE;
      TruncateObj(ObjName(f, num), size % OBJ_SIZE);
      var top := num + 1;
      CutFirst(old(objs), objs, f, num, size % OBJ_SIZE);
      while ObjName(f, top) in objs
        invariant num + 1 <= top <= Max(n, num + 1)
        invariant Cutting(old(objs), objs, f, num, size % OBJ_SIZE, top)
        decreases n - top
      {
        CutOneMore(old(objs), objs, f, num, size % OBJ_SIZE, top);
        objs := objs - {ObjName(f, top)};
        top := top + 1;
      }
      CutLays(old(objs), objs, f, b, n, size, top);
    }

    /** truncate_obj: a successful no-op on an object that does not exist. */
    method TruncateObj(key: ObjName, cut: nat)
      modifies this
      ensures objs == if key in old(objs) then old(objs)[key := Resized(old(objs)[key], cut)] else old(objs)
    {
      if key in objs {
        objs := objs[key := Resized(objs[key], cut)];
      }
    }

    /** read_obj: None is -ENOENT; otherwise the bytes, clipped at the end of the object, go to value[at..]. */
    method ReadObj(key: ObjName, value: array<byte>, at: nat, len: nat, offset: nat) returns (ret: Option<nat>)
      requires at + len <= value.Length
      modifies value
      ensures ret.None? <==> key !in objs
      ensures ret.None? ==> value[..] == old(value[..])
      ensures ret.Some? ==> ret.value == |FlatRead(objs[key], offset, len)| <= len
      ensures ret.Some? ==> value[..] == Spliced(old(value[..]), at, FlatRead(objs[key], offset, len))
    {
      if key !in objs { return None; }
      var got := FlatRead(objs[key], offset, len);
      CopyTo(value, at, got);
      return Some(|got|);
    }

    /** memcpy of `got` to value[at..]. */
    method CopyTo(value: array<byte>, at: nat, got: seq<byte>)
      requires at + |got| <= value.Length
      modifies value
      ensures value[..] == Spliced(old(value[..]), at, got)
    {
      forall i | 0 <= i < |got| {
        value[at + i] := got[i];
      }
    }

    /**
      Striped read delivers the flat slice: the count, returned or carried by no_such_object, is the
      clipped length, the buffer starts with exactly those bytes, and the exception is raised exactly
      when the range reaches past the last object.
     */
    method Read(f: FileId, value: array<byte>, len: nat, offset: nat) returns (end: ReadEnd)
      requires Striped(objs, f) && len <= value.Length
      modifies value
      ensures var b, n := Contents(objs, f), end.count;
        && n == (if |b| <= offset then 0 else if |b| < offset + len then |b| - offset else len)
        && (forall i :: 0 <= i < n ==> value[i] == b[offset + i])
        && (forall i :: n <= i < value.Length ==> value[i] == old(value[i]))
      ensures end.count == |FlatRead(Contents(objs, f), offset, len)|
      ensures value[..] == FlatRead(Contents(objs, f), offset, len) + old(value[..])[end.count..]
      ensures end.NoSuchObject? <==> len > 0 && offset + len > Count(objs, f) * OBJ_SIZE
    {
      ghost var b, start := Contents(objs, f), value[..];
      var sum, upto := ReadLoop(f, value, len, offset, start);
      AllRead(b, start, offset, len, upto, sum, value[..]);
      end := if upto < offset + len then NoSuchObject(sum) else Returned(sum);
    }

    /** The cursor loop of read, up to its end or to the first missing object. */
    method ReadLoop(f: FileId, value: array<byte>, len: nat, offset: nat, ghost start: seq<byte>)
        returns (sum: nat, upto: nat)
      requires Striped(objs, f) && len <= value.Length && start == value[..]
      modifies value
      ensures ReadSoFar(Contents(objs, f), start, offset, upto, sum, value[..])
      ensures upto <= offset + len
      ensures upto == offset + len ==> len == 0 || upto <= Count(objs, f) * OBJ_SIZE
      ensures upto < offset + len ==> Count(objs, f) * OBJ_SIZE <= upto && |Contents(objs, f)| <= upto
    {
      ghost var top := Count(objs, f) * OBJ_SIZE;
      var cursor, stop := offset, offset + len;
      sum, upto := 0, offset;
      NothingRead(Contents(objs, f), start, offset);
      while cursor < stop
        invariant ReadSoFar(Contents(objs, f), start, offset, upto, sum, value[..])
        invariant offset <= upto <= stop && upto == Min(cursor, stop) && (offset < upto ==> upto <= top)
        decreases stop - cursor
      {
        var ret := ReadPiece(f, value, sum, cursor, TurnEnd(cursor, stop), start, offset);
        if ret.None? { return; }
        sum, upto, cursor := sum + ret.value, TurnEnd(cursor, stop), Bound(cursor);
      }
    }

    /** One object read of the cursor loop: bytes up to `until`, which lie in one object. */
    method ReadPiece(
        f: FileId, value: array<byte>, sum: nat, cursor: nat, until: nat, ghost start: seq<byte>,
        ghost offset: nat)
      returns (ret: Option<nat>)
      requires Striped(objs, f) && until - offset <= value.Length
      requires offset <= cursor < until && cursor % OBJ_SIZE + (until - cursor) <= OBJ_SIZE
      requires ReadSoFar(Contents(objs, f), start, offset, cursor, sum, value[..])
      modifies value
      ensures ret.None? ==>
        value[..] == old(value[..]) && Count(objs, f) * OBJ_SIZE <= cursor && |Contents(objs, f)| <= cursor
      ensures ret.Some? ==>
        && until <= Count(objs, f) * OBJ_SIZE
        && ReadSoFar(Contents(objs, f), start, offset, until, sum + ret.value, value[..])
    {
      ghost var b, before := Contents(objs, f), value[..];
      var name := ObjName(f, cursor / OBJ_SIZE);
      PieceOf(objs, f, offset, cursor, until);
      ret := ReadObj(name, value, sum, until - cursor, cursor % OBJ_SIZE);
      if ret.Some? {
        ghost var g := FlatRead(objs[name], cursor % OBJ_SIZE, until - cursor);
        ReadStep(b, start, offset, cursor, until, sum, g, before, value[..]);
      }
    }

    /** exist looks at the first object only, and that suffices. */
    method Exist(f: FileId) returns (found: bool)
      requires Striped(objs, f)
      ensures found <==> Count(objs, f) > 0
      ensures !found ==> forall k: nat :: ObjName(f, k) !in objs
    {
      LaysChosen(objs, f);
      found := ObjName(f, 0) in objs;
    }

    /** stat sums the object sizes up to the first missing object: the length of the flat file. */
    method Stat(f: FileId) returns (found: bool, size: nat)
      requires Striped(objs, f)
      ensures found <==> Count(objs, f) > 0
      ensures size == |Contents(objs, f)|
    {
      ghost var b, n := Contents(objs, f), Count(objs, f);
      LaysChosen(objs, f);
      var num := 0;
      size := 0;
      while ObjName(f, num) in objs
        invariant num <= n && size == Min(num * OBJ_SIZE, |b|)
        decreases n - num
      {
        assert objs[ObjName(f, num)] == Stripe(b, num);
        size := size + |objs[ObjName(f, num)]|;
        num := num + 1;
      }
      found := num > 0;
    }

    /** remove leaves no object of the file. */
    method Remove(f: FileId)
      requires Striped(objs, f)
      modifies this
      ensures Striped(objs, f) && Contents(objs, f) == [] && Count(objs, f) == 0
      ensures forall k: nat :: ObjName(f, k) !in objs
      ensures OnlyChanges(old(objs), objs, f)
    {
      ghost var n := Count(objs, f);
      LaysChosen(objs, f);
      var num := 0;
      while ObjName(f, num) in objs
        invariant num <= n
        invariant forall k: nat :: ObjName(f, k) in objs <==> num <= k < n
        invariant OnlyChanges(old(objs), objs, f)
        decreases n - num
      {
        objs := objs - {ObjName(f, num)};
        num := num + 1;
      }
      assert ObjName(f, num) in objs <==> num < n;
      assert Lays(objs, f, [], 0);
      LaysIs(objs, f, [], 0);
    }
  }
}
