/** The striped layout and the flat file it stands for. */
module Striping {
  import opened Types
  import opened ObjectKeys

  const OBJ_SIZE := 4194304

  type Objects = map<ObjName, seq<byte>>

  function Zeros(n: nat): seq<byte> {
    seq(n, _ => 0)
  }

  function Max(a: int, b: int): int {
    if a > b then a else b
  }

  function Min(a: int, b: int): int {
    if a < b then a else b
  }

  /** The object boundary above `cursor`: (cursor & OBJ_MASK) + OBJ_SIZE. */
  function Bound(cursor: nat): (b: nat)
    ensures cursor < b && cursor % OBJ_SIZE + (b - cursor) == OBJ_SIZE
  {
    cursor - cursor % OBJ_SIZE + OBJ_SIZE
  }

  /** Where the turn of a cursor loop that starts at `cursor` ends: at the object boundary, or at `stop`. */
  function TurnEnd(cursor: nat, stop: nat): (e: nat)
    requires cursor < stop
    ensures cursor < e <= stop && cursor % OBJ_SIZE + (e - cursor) <= OBJ_SIZE
    ensures e == Min(Bound(cursor), stop)
  {
    Min(Bound(cursor), stop)
  }

  /**
    Writing `data` at `offset` into `was`: zero-padded up to the offset, then overwritten. This is
    what a single RADOS write does to an object, and what a striped write must do to a file.
   */
  function Blend(was: seq<byte>, data: seq<byte>, offset: nat): seq<byte> {
    (if offset <= |was| then was[..offset] else was + Zeros(offset - |was|))
    + data
    + (if offset + |data| < |was| then was[offset + |data|..] else [])
  }

  /** A file cut or zero-extended to `size`. */
  function Resized(was: seq<byte>, size: nat): seq<byte> {
    if size <= |was| then was[..size] else was + Zeros(size - |was|)
  }

  /** The part of a file that stripe `k` holds. */
  function Stripe(bytes: seq<byte>, k: nat): seq<byte>
    requires k * OBJ_SIZE <= |bytes|
  {
    bytes[k * OBJ_SIZE..Min((k + 1) * OBJ_SIZE, |bytes|)]
  }

  /**
    The objects of `f` are stripes 0..n-1 of `bytes` and no others: contiguous, all but the last
    full, the last possibly empty.
   */
  ghost predicate Lays(objs: Objects, f: FileId, bytes: seq<byte>, n: nat) {
    && |bytes| <= n * OBJ_SIZE && (n > 0 ==> (n - 1) * OBJ_SIZE <= |bytes|)
    && (forall k: nat :: ObjName(f, k) in objs <==> k < n)
    && (forall k: nat :: k < n ==> objs[ObjName(f, k)] == Stripe(bytes, k))
  }

  ghost predicate Striped(objs: Objects, f: FileId) {
    exists bytes, n :: Lays(objs, f, bytes, n)
  }

  /** The flat file behind a well-formed layout. */
  ghost function Contents(objs: Objects, f: FileId): seq<byte>
    requires Striped(objs, f)
  {
    var bytes, n :| Lays(objs, f, bytes, n);
    bytes
  }

  /** How many objects the file occupies. */
  ghost function Count(objs: Objects, f: FileId): nat
    requires Striped(objs, f)
  {
    var n :| Lays(objs, f, Contents(objs, f), n);
    n
  }

  /** A layout determines its file and its number of objects. */
  lemma LaysUnique(objs: Objects, f: FileId, a: seq<byte>, m: nat, b: seq<byte>, n: nat)
    requires Lays(objs, f, a, m) && Lays(objs, f, b, n)
    ensures a == b && m == n
  {
    assert ObjName(f, m) in objs <==> m < n;
    assert ObjName(f, n) in objs <==> n < m;
    if n > 0 {
      assert objs[ObjName(f, n - 1)] == Stripe(a, n - 1) == Stripe(b, n - 1);
      assert |a| == |b|;
    }
    forall i | 0 <= i < |a| ensures a[i] == b[i] {
      var k := i / OBJ_SIZE;
      assert objs[ObjName(f, k)] == Stripe(a, k) == Stripe(b, k);
      assert Stripe(a, k)[i - k * OBJ_SIZE] == a[i];
      assert Stripe(b, k)[i - k * OBJ_SIZE] == b[i];
    }
  }

  lemma LaysIs(objs: Objects, f: FileId, bytes: seq<byte>, n: nat)
    requires Lays(objs, f, bytes, n)
    ensures Striped(objs, f) && Contents(objs, f) == bytes && Count(objs, f) == n
  {
    var b, m :| Lays(objs, f, b, m) && Contents(objs, f) == b;
    LaysUnique(objs, f, bytes, n, b, m);
    LaysUnique(objs, f, bytes, n, bytes, Count(objs, f));
  }

  /** Only objects of `f` differ. */
  ghost predicate OnlyChanges(objs: Objects, objs': Objects, f: FileId) {
    forall o: ObjName :: o.file != f ==> (o in objs' <==> o in objs) && (o in objs ==> objs'[o] == objs[o])
  }

  /** No operation on one file changes another. */
  lemma OthersKept(objs: Objects, objs': Objects, f: FileId, g: FileId)
    requires OnlyChanges(objs, objs', f) && g != f && Striped(objs, g)
    ensures Striped(objs', g) && Contents(objs', g) == Contents(objs, g) && Count(objs', g) == Count(objs, g)
  {
    var b, n :| Lays(objs, g, b, n);
    assert Lays(objs', g, b, n);
    LaysIs(objs, g, b, n);
    LaysIs(objs', g, b, n);
  }

  /** An object, or nothing if it does not exist. */
  function ObjectAt(objs: Objects, key: ObjName): seq<byte> {
    if key in objs then objs[key] else []
  }

  /** One object write inside one stripe is one write on the flat file, up to its end. */
  lemma WriteStripe(objs: Objects, f: FileId, bytes: seq<byte>, n: nat, data: seq<byte>, cursor: nat)
    requires Lays(objs, f, bytes, n) && cursor <= |bytes| && |data| > 0 && cursor % OBJ_SIZE + |data| <= OBJ_SIZE
    ensures var k := cursor / OBJ_SIZE;
      Lays(objs[ObjName(f, k) := Blend(ObjectAt(objs, ObjName(f, k)), data, cursor % OBJ_SIZE)],
           f, Blend(bytes, data, cursor), Max(n, k + 1))
  {
    var k, r := cursor / OBJ_SIZE, cursor % OBJ_SIZE;
    var o, bytes' := ObjectAt(objs, ObjName(f, k)), Blend(bytes, data, cursor);
    var objs', n' := objs[ObjName(f, k) := Blend(o, data, r)], Max(n, k + 1);
    WriteBounds(bytes, n, data, cursor);
    assert o == Stripe(bytes, k) by { assert k < n ==> objs[ObjName(f, k)] == Stripe(bytes, k); }
    forall j: nat | j < n' ensures objs'[ObjName(f, j)] == Stripe(bytes', j) {
      if j == k {
        SameStripe(bytes, data, cursor, o);
      } else {
        assert objs[ObjName(f, j)] == Stripe(bytes, j);
        OtherStripe(bytes, data, cursor, j);
      }
    }
  }

  /** A write inside one stripe keeps all stripes but the last full. */
  lemma WriteBounds(bytes: seq<byte>, n: nat, data: seq<byte>, cursor: nat)
    requires |bytes| <= n * OBJ_SIZE && (n > 0 ==> (n - 1) * OBJ_SIZE <= |bytes|)
    requires cursor <= |bytes| && |data| > 0 && cursor % OBJ_SIZE + |data| <= OBJ_SIZE
    ensures var n', size := Max(n, cursor / OBJ_SIZE + 1), |Blend(bytes, data, cursor)|;
      size <= n' * OBJ_SIZE && (n' - 1) * OBJ_SIZE <= size
    ensures cursor / OBJ_SIZE <= n && cursor / OBJ_SIZE * OBJ_SIZE <= |bytes|
  {
    BlendAt(bytes, data, cursor, 0);
  }

  /** Byte `i` of a file after a write: from the data, from the file as it was, or a zero between the two. */
  lemma BlendAt(b: seq<byte>, data: seq<byte>, offset: nat, i: nat)
    requires i < |Blend(b, data, offset)|
    ensures |Blend(b, data, offset)| == if |b| < offset + |data| then offset + |data| else |b|
    ensures Blend(b, data, offset)[i] ==
      if offset <= i < offset + |data| then data[i - offset] else if i < |b| then b[i] else 0
  {
  }

  /** Byte `i` of a file cut or extended, and of one that is only extended. */
  lemma ResizedAt(b: seq<byte>, size: nat, i: nat)
    ensures |Resized(b, size)| == size
    ensures |Padded(b, size)| == if |b| < size then size else |b|
    ensures i < size ==> Resized(b, size)[i] == if i < |b| then b[i] else 0
    ensures i < |Padded(b, size)| ==> Padded(b, size)[i] == if i < |b| then b[i] else 0
  {
  }

  lemma SameStripe(bytes: seq<byte>, data: seq<byte>, cursor: nat, o: seq<byte>)
    requires cursor <= |bytes| && |data| > 0 && cursor % OBJ_SIZE + |data| <= OBJ_SIZE
    requires o == Stripe(bytes, cursor / OBJ_SIZE)
    ensures Blend(o, data, cursor % OBJ_SIZE) == Stripe(Blend(bytes, data, cursor), cursor / OBJ_SIZE)
  {
    var k, r := cursor / OBJ_SIZE, cursor % OBJ_SIZE;
    var left, right := Blend(o, data, r), Stripe(Blend(bytes, data, cursor), k);
    assert |left| == |right|;
    forall i | 0 <= i < |left| ensures left[i] == right[i] {
      BlendAt(o, data, r, i);
      BlendAt(bytes, data, cursor, k * OBJ_SIZE + i);
    }
  }

  lemma OtherStripe(bytes: seq<byte>, data: seq<byte>, cursor: nat, j: nat)
    requires cursor <= |bytes| && |data| > 0 && cursor % OBJ_SIZE + |data| <= OBJ_SIZE
    requires j != cursor / OBJ_SIZE && j * OBJ_SIZE <= |bytes|
    ensures Stripe(Blend(bytes, data, cursor), j) == Stripe(bytes, j)
  {
    var left, right := Stripe(Blend(bytes, data, cursor), j), Stripe(bytes, j);
    assert |left| == |right|;
    forall i | 0 <= i < |left| ensures left[i] == right[i] {
      BlendAt(bytes, data, cursor, j * OBJ_SIZE + i);
    }
  }

  /** Writing a buffer piece by piece is writing it at once. */
  lemma BlendStep(b: seq<byte>, v: seq<byte>, offset: nat, i: nat, j: nat)
    requires offset <= |b| && i <= j <= |v|
    ensures Blend(Blend(b, v[..i], offset), v[i..j], offset + i) == Blend(b, v[..j], offset)
  {
  }

  /** The file with a prefix of `v` written at `offset`, and only this file touched since `start`. */
  ghost predicate Progress(
    start: Objects, objs: Objects, f: FileId, b: seq<byte>, v: seq<byte>, offset: nat, i: nat, n: nat)
    requires i <= |v|
  {
    Lays(objs, f, Blend(b, v[..i], offset), n) && OnlyChanges(start, objs, f)
  }

  /** One turn of a cursor loop: the next piece of `v`, up to the object boundary. */
  lemma NextPiece(start: Objects, objs: Objects, f: FileId, b: seq<byte>, v: seq<byte>, offset: nat,
                  i: nat, j: nat, cursor: nat, n: nat, objs': Objects)
    requires offset <= |b| && i < j <= |v| && cursor == offset + i && cursor % OBJ_SIZE + (j - i) <= OBJ_SIZE
    requires Progress(start, objs, f, b, v, offset, i, n)
    requires var name := ObjName(f, cursor / OBJ_SIZE);
      objs' == objs[name := Blend(ObjectAt(objs, name), v[i..j], cursor % OBJ_SIZE)]
    ensures Progress(start, objs', f, b, v, offset, j, Max(n, cursor / OBJ_SIZE + 1))
  {
    var was, now := Blend(b, v[..i], offset), Blend(b, v[..j], offset);
    BlendStep(b, v, offset, i, j);
    NextLays(objs, f, was, n, v[i..j], cursor, now, objs');
    OneObject(start, objs, f, ObjName(f, cursor / OBJ_SIZE), objs'[ObjName(f, cursor / OBJ_SIZE)]);
  }

  lemma NextLays(
      objs: Objects, f: FileId, was: seq<byte>, n: nat, data: seq<byte>, cursor: nat, now: seq<byte>,
      objs': Objects)
    requires Lays(objs, f, was, n) && cursor <= |was| && |data| > 0 && cursor % OBJ_SIZE + |data| <= OBJ_SIZE
    requires now == Blend(was, data, cursor)
    requires var name := ObjName(f, cursor / OBJ_SIZE);
      objs' == objs[name := Blend(ObjectAt(objs, name), data, cursor % OBJ_SIZE)]
    ensures Lays(objs', f, now, Max(n, cursor / OBJ_SIZE + 1))
  {
    WriteStripe(objs, f, was, n, data, cursor);
  }

  lemma OneObject(start: Objects, objs: Objects, f: FileId, name: ObjName, bytes: seq<byte>)
    requires OnlyChanges(start, objs, f) && name.file == f
    ensures OnlyChanges(start, objs[name := bytes], f)
  {
  }

  lemma Started(objs: Objects, f: FileId, b: seq<byte>, v: seq<byte>, offset: nat, n: nat)
    requires offset <= |b| && Lays(objs, f, b, n)
    ensures Progress(objs, objs, f, b, v, offset, 0, n)
  {
    assert Blend(b, v[..0], offset) == b;
  }

  lemma Finished(start: Objects, objs: Objects, f: FileId, b: seq<byte>, v: seq<byte>, offset: nat, n: nat)
    requires Progress(start, objs, f, b, v, offset, |v|, n)
    ensures Striped(objs, f) && Contents(objs, f) == Blend(b, v, offset) && Count(objs, f) == n
  {
    assert v[..|v|] == v;
    LaysIs(objs, f, Blend(b, v, offset), n);
  }

  /** The layout chosen for a file is one of its layouts. */
  lemma LaysChosen(objs: Objects, f: FileId)
    requires Striped(objs, f)
    ensures Lays(objs, f, Contents(objs, f), Count(objs, f))
  {
  }

  /** A file zero-padded up to `size`, if it is shorter. */
  function Padded(was: seq<byte>, size: nat): seq<byte> {
    if |was| < size then was + Zeros(size - |was|) else was
  }

  /** Zeros written at the end pad the file. */
  lemma ZerosAtEnd(was: seq<byte>, size: nat)
    requires |was| < size
    ensures Blend(was, Zeros(size - |was|), |was|) == Padded(was, size)
  {
  }

  /** Filling the hole with zeros first and writing then is one padded write. */
  lemma PadThenWrite(was: seq<byte>, value: seq<byte>, offset: nat)
    ensures Blend(Padded(was, offset), value, offset) == Blend(was, value, offset) && offset <= |Padded(was, offset)|
  {
  }

  /** Object `num` of `f` cut, those above it gone up to `top`, nothing else changed. */
  ghost predicate Cutting(start: Objects, objs: Objects, f: FileId, num: nat, cut: nat, top: nat) {
    forall o: ObjName ::
      && (o in objs <==> o in start && !(o.file == f && num < o.num < top))
      && (o in objs ==> objs[o] == if o == ObjName(f, num) then Resized(start[o], cut) else start[o])
  }

  lemma CutFirst(start: Objects, objs: Objects, f: FileId, num: nat, cut: nat)
    requires var key := ObjName(f, num);
      objs == if key in start then start[key := Resized(start[key], cut)] else start
    ensures Cutting(start, objs, f, num, cut, num + 1)
  {
  }

  lemma CutOneMore(start: Objects, objs: Objects, f: FileId, num: nat, cut: nat, top: nat)
    requires Cutting(start, objs, f, num, cut, top) && num < top
    ensures Cutting(start, objs - {ObjName(f, top)}, f, num, cut, top + 1)
  {
  }

  lemma CutStripe(b: seq<byte>, size: nat, num: nat, k: nat)
    requires size <= |b| && num == size / OBJ_SIZE && k <= num
    ensures Stripe(b[..size], k) == if k == num then Resized(Stripe(b, k), size % OBJ_SIZE) else Stripe(b, k)
  {
    var left, o := Stripe(b[..size], k), Stripe(b, k);
    var right := if k == num then Resized(o, size % OBJ_SIZE) else o;
    assert |left| == |right|;
    forall i | 0 <= i < |left| ensures left[i] == right[i] {
      assert left[i] == b[k * OBJ_SIZE + i] == o[i];
    }
  }

  lemma CutLays(start: Objects, objs: Objects, f: FileId, b: seq<byte>, n: nat, size: nat, top: nat)
    requires Lays(start, f, b, n) && size <= |b|
    requires var num := size / OBJ_SIZE;
      num + 1 <= top && Cutting(start, objs, f, num, size % OBJ_SIZE, top) && ObjName(f, top) !in objs
    ensures Striped(objs, f) && Contents(objs, f) == b[..size] && OnlyChanges(start, objs, f)
  {
    var num := size / OBJ_SIZE;
    var n' := Min(n, num + 1);
    assert ObjName(f, top) in start <==> top < n;
    assert size <= n' * OBJ_SIZE && (n' > 0 ==> (n' - 1) * OBJ_SIZE <= size);
    forall k: nat ensures ObjName(f, k) in objs <==> k < n' {
      assert ObjName(f, k) in start <==> k < n;
    }
    forall k: nat | k < n' ensures objs[ObjName(f, k)] == Stripe(b[..size], k) {
      assert start[ObjName(f, k)] == Stripe(b, k);
      CutStripe(b, size, num, k);
    }
    assert Lays(objs, f, b[..size], n');
    LaysIs(objs, f, b[..size], n');
  }

  /** Reading `len` bytes at `offset` of a flat file, clipped at its end. */
  function FlatRead(b: seq<byte>, offset: nat, len: nat): seq<byte> {
    if |b| <= offset then [] else b[offset..Min(offset + len, |b|)]
  }

  /** A read delivers the bytes from `offset` on, as many as there are and no more than asked for. */
  lemma FlatReadAt(b: seq<byte>, offset: nat, len: nat, i: nat)
    ensures |FlatRead(b, offset, len)| <= len && offset + |FlatRead(b, offset, len)| <= Max(|b|, offset)
    ensures |FlatRead(b, offset, len)| == len || |b| <= offset + |FlatRead(b, offset, len)|
    ensures i < |FlatRead(b, offset, len)| ==> FlatRead(b, offset, len)[i] == b[offset + i]
  {
  }

  /** Where byte `i` of a file is: in object `i` div the object size, at `i` mod the object size. */
  lemma ContentsAt(objs: Objects, f: FileId, i: nat)
    requires Striped(objs, f) && i < |Contents(objs, f)|
    ensures var name := ObjName(f, i / OBJ_SIZE);
      name in objs && i % OBJ_SIZE < |objs[name]| && objs[name][i % OBJ_SIZE] == Contents(objs, f)[i]
  {
    LaysChosen(objs, f);
    var k := i / OBJ_SIZE;
    assert k < Count(objs, f);
    assert objs[ObjName(f, k)] == Stripe(Contents(objs, f), k);
  }

  /** How long a file is: all its objects but the last are full. */
  lemma ContentsLength(objs: Objects, f: FileId)
    requires Striped(objs, f)
    ensures forall k: nat :: ObjName(f, k) in objs <==> k < Count(objs, f)
    ensures var n := Count(objs, f);
      |Contents(objs, f)| == if n == 0 then 0 else (n - 1) * OBJ_SIZE + |objs[ObjName(f, n - 1)]|
    ensures forall k: nat :: k + 1 < Count(objs, f) ==> |objs[ObjName(f, k)]| == OBJ_SIZE
  {
    LaysChosen(objs, f);
    var n, b := Count(objs, f), Contents(objs, f);
    if n > 0 { assert objs[ObjName(f, n - 1)] == Stripe(b, n - 1); }
    forall k: nat | k + 1 < n ensures |objs[ObjName(f, k)]| == OBJ_SIZE {
      assert objs[ObjName(f, k)] == Stripe(b, k);
    }
  }

  /** One object read continues the flat read up to the object boundary. */
  lemma ReadOn(objs: Objects, f: FileId, b: seq<byte>, n: nat, offset: nat, cursor: nat, until: nat)
    requires Lays(objs, f, b, n) && offset <= cursor < until && cursor % OBJ_SIZE + (until - cursor) <= OBJ_SIZE
    requires ObjName(f, cursor / OBJ_SIZE) in objs
    ensures until <= n * OBJ_SIZE
    ensures var o := objs[ObjName(f, cursor / OBJ_SIZE)];
      FlatRead(b, offset, cursor - offset) + FlatRead(o, cursor % OBJ_SIZE, until - cursor) ==
      FlatRead(b, offset, until - offset)
  {
    var k := cursor / OBJ_SIZE;
    StripeAt(objs, f, b, n, k);
    ReadOnFlat(b, objs[ObjName(f, k)], k, offset, cursor, until);
  }

  lemma ReadOnFlat(b: seq<byte>, o: seq<byte>, k: nat, offset: nat, cursor: nat, until: nat)
    requires offset <= cursor < until && cursor % OBJ_SIZE + (until - cursor) <= OBJ_SIZE
    requires k == cursor / OBJ_SIZE && k * OBJ_SIZE <= |b| && o == Stripe(b, k)
    ensures FlatRead(b, offset, cursor - offset) + FlatRead(o, cursor % OBJ_SIZE, until - cursor) ==
      FlatRead(b, offset, until - offset)
  {
    StripeRead(b, k, cursor, until - cursor);
    ReadSplit(b, offset, cursor, until);
  }

  lemma StripeAt(objs: Objects, f: FileId, b: seq<byte>, n: nat, k: nat)
    requires Lays(objs, f, b, n) && ObjName(f, k) in objs
    ensures k * OBJ_SIZE <= |b| && objs[ObjName(f, k)] == Stripe(b, k) && (k + 1) * OBJ_SIZE <= n * OBJ_SIZE
  {
  }

  lemma StripeRead(b: seq<byte>, k: nat, at: nat, len: nat)
    requires k == at / OBJ_SIZE && k * OBJ_SIZE <= |b| && at % OBJ_SIZE + len <= OBJ_SIZE
    ensures FlatRead(Stripe(b, k), at % OBJ_SIZE, len) == FlatRead(b, at, len)
  {
    var o, r := Stripe(b, k), at % OBJ_SIZE;
    var left, right := FlatRead(o, r, len), FlatRead(b, at, len);
    assert |left| == |right|;
    forall i | 0 <= i < |left| ensures left[i] == right[i] {
      assert left[i] == o[r + i] == b[k * OBJ_SIZE + r + i];
    }
  }

  /**
    `sum` bytes of the flat file from `offset` up to `upto` are in the buffer, which is otherwise as it was at
    the start.
   */
  ghost predicate ReadSoFar(b: seq<byte>, start: seq<byte>, offset: nat, upto: nat, sum: nat, value: seq<byte>) {
    && offset <= upto && sum == |FlatRead(b, offset, upto - offset)| <= upto - offset
    && sum <= |start| && value == FlatRead(b, offset, upto - offset) + start[sum..]
  }

  /** A buffer with `g` copied to position `at`. */
  function Spliced(s: seq<byte>, at: nat, g: seq<byte>): seq<byte>
    requires at + |g| <= |s|
  {
    s[..at] + g + s[at + |g|..]
  }

  /** One more piece in the buffer. */
  lemma ReadStep(
      b: seq<byte>, start: seq<byte>, offset: nat, cursor: nat, until: nat, sum: nat, g: seq<byte>, before: seq<byte>,
      after: seq<byte>)
    requires ReadSoFar(b, start, offset, cursor, sum, before) && cursor <= until && until - offset <= |before|
    requires FlatRead(b, offset, cursor - offset) + g == FlatRead(b, offset, until - offset) && |g| <= until - cursor
    requires sum + |g| <= |before| && after == Spliced(before, sum, g)
    ensures ReadSoFar(b, start, offset, until, sum + |g|, after)
  {
    BufferStep(start, FlatRead(b, offset, cursor - offset), g, before, after);
  }

  /** The read buffer after one more piece: what is read so far, then the bytes it held at the start. */
  lemma BufferStep(start: seq<byte>, x: seq<byte>, g: seq<byte>, before: seq<byte>, after: seq<byte>)
    requires |x| <= |start| && before == x + start[|x|..] && |x| + |g| <= |before|
    requires after == Spliced(before, |x|, g)
    ensures |x + g| <= |start| && after == (x + g) + start[|x + g|..]
  {
  }

  lemma ReadSplit(b: seq<byte>, offset: nat, cursor: nat, until: nat)
    requires offset <= cursor <= until
    ensures FlatRead(b, offset, cursor - offset) + FlatRead(b, cursor, until - cursor) ==
      FlatRead(b, offset, until - offset)
  {
  }

  /** Past the last object the file has ended. */
  lemma PastEnd(objs: Objects, f: FileId, b: seq<byte>, n: nat, cursor: nat)
    requires Lays(objs, f, b, n) && ObjName(f, cursor / OBJ_SIZE) !in objs
    ensures |b| <= n * OBJ_SIZE <= cursor
  {
  }

  /** What the object at `cursor` adds to a read, if it exists; otherwise the file has ended. */
  lemma PieceOf(objs: Objects, f: FileId, offset: nat, cursor: nat, until: nat)
    requires Striped(objs, f) && offset <= cursor < until && cursor % OBJ_SIZE + (until - cursor) <= OBJ_SIZE
    ensures var b, name := Contents(objs, f), ObjName(f, cursor / OBJ_SIZE);
      if name in objs then
        && until <= Count(objs, f) * OBJ_SIZE
        && FlatRead(b, offset, cursor - offset) + FlatRead(objs[name], cursor % OBJ_SIZE, until - cursor)
           == FlatRead(b, offset, until - offset)
      else Count(objs, f) * OBJ_SIZE <= cursor && |b| <= cursor
  {
    LaysChosen(objs, f);
    if ObjName(f, cursor / OBJ_SIZE) in objs {
      ReadOn(objs, f, Contents(objs, f), Count(objs, f), offset, cursor, until);
    } else {
      PastEnd(objs, f, Contents(objs, f), Count(objs, f), cursor);
    }
  }

  lemma NothingRead(b: seq<byte>, start: seq<byte>, offset: nat)
    ensures ReadSoFar(b, start, offset, offset, 0, start)
  {
  }

  /** Up to the end of the range, or past the end of the file, there is nothing more to read. */
  lemma AllRead(b: seq<byte>, start: seq<byte>, offset: nat, len: nat, upto: nat, sum: nat, value: seq<byte>)
    requires ReadSoFar(b, start, offset, upto, sum, value) && upto <= offset + len
    requires |b| <= upto || upto == offset + len
    ensures ReadSoFar(b, start, offset, offset + len, sum, value)
  {
    assert FlatRead(b, offset, len) == FlatRead(b, offset, upto - offset);
  }
}
