/** Records laid end to end in a journal object, and the scan over them (journal::check). */
module Framing {
  import opened Types
  import opened Striping
  import opened DentryCodec

  /** A record as committed, and whether its checkpoint has cleared its first byte. */
  datatype Frame = Frame(bytes: seq<byte>, cleared: bool)

  /** A record starts with its own size. */
  predicate WellSized(bytes: seq<byte>) { |bytes| >= 5 && FromLe(bytes[..4]) == |bytes| }

  predicate SizedAt(frames: seq<Frame>, k: nat)
    requires k < |frames|
  {
    WellSized(frames[k].bytes)
  }

  predicate AllSized(frames: seq<Frame>) { forall k :: 0 <= k < |frames| ==> SizedAt(frames, k) }

  function Shown(f: Frame): seq<byte> {
    if f.cleared && f.bytes != [] then [0] + f.bytes[1..] else f.bytes
  }

  function Journal(frames: seq<Frame>): seq<byte> {
    if frames == [] then [] else Journal(frames[..|frames| - 1]) + Shown(frames[|frames| - 1])
  }

  /** The room records take: checkpoints do not change it. */
  function Size(frames: seq<Frame>): nat {
    if frames == [] then 0 else Size(frames[..|frames| - 1]) + |frames[|frames| - 1].bytes|
  }

  /** Where record `k` starts. */
  function Start(frames: seq<Frame>, k: nat): nat
    requires k <= |frames|
  {
    Size(frames[..k])
  }

  lemma ShownLength(f: Frame)
    ensures |Shown(f)| == |f.bytes|
  {
  }

  lemma {:induction false} JournalLength(frames: seq<Frame>)
    ensures |Journal(frames)| == Size(frames)
  {
    if frames != [] {
      JournalLength(frames[..|frames| - 1]);
      ShownLength(frames[|frames| - 1]);
    }
  }

  lemma WholeStart(frames: seq<Frame>)
    ensures Start(frames, |frames|) == |Journal(frames)|
  {
    assert frames[..|frames|] == frames;
    JournalLength(frames);
  }

  lemma StartPrefix(frames: seq<Frame>, n: nat, k: nat)
    requires k <= n <= |frames|
    ensures Start(frames[..n], k) == Start(frames, k)
  {
    assert frames[..n][..k] == frames[..k];
  }

  lemma StartNext(frames: seq<Frame>, k: nat)
    requires k < |frames|
    ensures Start(frames, k + 1) == Start(frames, k) + |frames[k].bytes|
  {
    assert frames[..k + 1][..k] == frames[..k];
  }

  lemma Snoc(init: seq<Frame>, f: Frame)
    ensures Journal(init + [f]) == Journal(init) + Shown(f) && Start(init + [f], |init|) == |Journal(init)|
  {
    assert (init + [f])[..|init|] == init;
    JournalLength(init);
  }

  /** Records laid one after the other can be taken apart anywhere. */
  lemma {:induction false} JournalJoin(a: seq<Frame>, b: seq<Frame>)
    ensures Journal(a + b) == Journal(a) + Journal(b)
    decreases |b|
  {
    if b == [] {
      assert a + b == a;
    } else {
      var init, f := b[..|b| - 1], b[|b| - 1];
      assert a + b == (a + init) + [f] && b == init + [f];
      Snoc(a + init, f);
      Snoc(init, f);
      JournalJoin(a, init);
      Regroup(Journal(a), Journal(init), Shown(f));
    }
  }

  /** A journal around record `k`. */
  lemma Around(frames: seq<Frame>, k: nat)
    requires k < |frames|
    ensures Journal(frames) == Journal(frames[..k]) + (Shown(frames[k]) + Journal(frames[k + 1..]))
  {
    SplitAt(frames, k);
    JournalJoin(frames[..k], frames[k..]);
    JournalJoin([frames[k]], frames[k + 1..]);
    Single(frames[k]);
  }

  lemma SplitAt(frames: seq<Frame>, k: nat)
    requires k < |frames|
    ensures frames == frames[..k] + frames[k..] && frames[k..] == [frames[k]] + frames[k + 1..]
  {
  }

  lemma Single(f: Frame)
    ensures Journal([f]) == Shown(f)
  {
    assert [f] == [] + [f];
    Snoc([], f);
  }

  lemma Middle(p: seq<byte>, x: seq<byte>, q: seq<byte>, n: nat)
    requires n == |x|
    ensures |p| + n <= |p + (x + q)| && (p + (x + q))[|p|..|p| + n] == x
  {
  }

  /** Record `k` is found, whole, at its start. */
  lemma FrameAt(frames: seq<Frame>, k: nat)
    requires k < |frames|
    ensures var at := Start(frames, k);
      && at + |frames[k].bytes| <= |Journal(frames)|
      && Journal(frames)[at..at + |frames[k].bytes|] == Shown(frames[k])
  {
    Around(frames, k);
    JournalLength(frames[..k]);
    ShownLength(frames[k]);
    Middle(Journal(frames[..k]), Shown(frames[k]), Journal(frames[k + 1..]), |frames[k].bytes|);
  }

  lemma ZeroInside(p: seq<byte>, x: seq<byte>, q: seq<byte>)
    requires x != []
    ensures (p + (x + q))[|p| := 0] == p + (([0] + x[1..]) + q)
  {
  }

  /** Clearing one record's first byte changes one byte of the journal, where the record starts. */
  lemma ClearOne(frames: seq<Frame>, k: nat)
    requires k < |frames| && frames[k].bytes != []
    ensures Start(frames, k) < |Journal(frames)|
    ensures Journal(frames[k := frames[k].(cleared := true)]) == Journal(frames)[Start(frames, k) := 0]
  {
    var f, frames' := frames[k], frames[k := frames[k].(cleared := true)];
    assert frames'[..k] == frames[..k] && frames'[k + 1..] == frames[k + 1..];
    Around(frames, k);
    Around(frames', k);
    JournalLength(frames[..k]);
    ShownLength(f);
    ZeroInside(Journal(frames[..k]), Shown(f), Journal(frames[k + 1..]));
    ShownCleared(f);
  }

  lemma ShownCleared(f: Frame)
    requires f.bytes != []
    ensures Shown(f.(cleared := true)) == [0] + Shown(f)[1..]
  {
  }

  /** Writing at the end of a journal appends. */
  lemma WriteAtEnd(j: seq<byte>, bytes: seq<byte>)
    ensures Blend(j, bytes, |j|) == j + bytes
  {
  }

  /** Writing one zero byte inside a journal changes that byte only. */
  lemma WriteZero(j: seq<byte>, at: nat)
    requires at < |j|
    ensures Blend(j, [0], at) == j[at := 0]
  {
    var left, right := Blend(j, [0], at), j[at := 0];
    assert |left| == |right|;
    forall i | 0 <= i < |left| ensures left[i] == right[i] {}
  }

  lemma {:induction false} SameSize(a: seq<Frame>, b: seq<Frame>)
    requires |a| == |b| && forall j :: 0 <= j < |a| ==> a[j].bytes == b[j].bytes
    ensures Size(a) == Size(b)
  {
    if a != [] { SameSize(a[..|a| - 1], b[..|b| - 1]); }
  }

  lemma SameStarts(a: seq<Frame>, b: seq<Frame>, k: nat)
    requires |a| == |b| && k <= |a| && forall j :: 0 <= j < |a| ==> a[j].bytes == b[j].bytes
    ensures Start(a, k) == Start(b, k)
  {
    SameSize(a[..k], b[..k]);
  }

  // ---- The scan ----

  /** The indices the scan loop visits; None when it stops advancing or leaves the object. */
  function Visit(value: seq<byte>, size: nat, index: nat): Option<seq<nat>>
    decreases size - index
  {
    if index == size then Some([])
    else if index > size || index + 4 > |value| then None
    else
      var step := FromLe(value[index..index + 4]);
      if step == 0 then None
      else match Visit(value, size, index + step)
        case None => None
        case Some(more) => Some([index] + more)
  }

  /** The scan goes from `a` to `b`: a size that is not zero is read at `a`, and `b` is that much further. */
  predicate Hop(value: seq<byte>, a: nat, b: nat) {
    a + 4 <= |value| && a < b && b == a + FromLe(value[a..a + 4])
  }

  /** `v` starts at `index` and leads to `size`, each index one hop after the one before it. */
  predicate Chain(value: seq<byte>, size: nat, index: nat, v: seq<nat>) {
    var stops := v + [size];
    stops[0] == index && forall k :: 0 <= k < |v| ==> v[k] < size && Hop(value, v[k], stops[k + 1])
  }

  /** The scan ends at the size with `v` visited if and only if `v` is such a chain. */
  lemma {:induction false} VisitsExactly(value: seq<byte>, size: nat, index: nat, v: seq<nat>)
    ensures Visit(value, size, index) == Some(v) <==> Chain(value, size, index, v)
    decreases |v|
  {
    if v != [] {
      var stops := v + [size];
      assert v[1..] + [size] == stops[1..];
      VisitsExactly(value, size, stops[1], v[1..]);
      ChainTail(value, size, index, v);
      if Visit(value, size, index).Some? { assert v == [v[0]] + v[1..]; }
    }
  }

  lemma ChainTail(value: seq<byte>, size: nat, index: nat, v: seq<nat>)
    requires v != []
    ensures Chain(value, size, index, v) <==>
      && v[0] == index && index < size && Hop(value, index, (v + [size])[1])
      && Chain(value, size, (v + [size])[1], v[1..])
  {
    var stops, tail := v + [size], v[1..] + [size];
    assert forall k :: 0 <= k < |tail| ==> tail[k] == stops[k + 1];
    if Chain(value, size, stops[1], v[1..]) && v[0] == index && index < size && Hop(value, index, stops[1]) {
      ChainLonger(value, size, index, v);
    }
    if Chain(value, size, index, v) {
      ChainShorter(value, size, index, v);
    }
  }

  lemma ChainLonger(value: seq<byte>, size: nat, index: nat, v: seq<nat>)
    requires v != [] && Chain(value, size, (v + [size])[1], v[1..])
    requires v[0] == index && index < size && Hop(value, index, (v + [size])[1])
    ensures Chain(value, size, index, v)
  {
    var stops, tail := v + [size], v[1..] + [size];
    forall k | 0 <= k < |v| ensures v[k] < size && Hop(value, v[k], stops[k + 1]) {
      if k > 0 {
        assert v[1..][k - 1] < size && Hop(value, v[1..][k - 1], tail[k]);
        assert v[1..][k - 1] == v[k] && tail[k] == stops[k + 1];
      }
    }
  }

  lemma ChainShorter(value: seq<byte>, size: nat, index: nat, v: seq<nat>)
    requires v != [] && Chain(value, size, index, v)
    ensures Chain(value, size, (v + [size])[1], v[1..])
  {
    var stops, tail := v + [size], v[1..] + [size];
    forall k | 0 <= k < |v| - 1 ensures v[1..][k] < size && Hop(value, v[1..][k], tail[k + 1]) {
      assert v[k + 1] < size && Hop(value, v[k + 1], stops[k + 2]);
      assert v[1..][k] == v[k + 1] && tail[k + 1] == stops[k + 2];
    }
  }

  /** The loop of journal::check as far as its index goes. */
  method Scan(value: seq<byte>, size: nat) returns (visited: seq<nat>, clean: bool)
    ensures clean <==> Visit(value, size, 0).Some?
    ensures clean ==> visited == Visit(value, size, 0).value
  {
    visited := [];
    var index := 0;
    while index < size
      invariant Visit(value, size, index).None? <==> Visit(value, size, 0).None?
      invariant Visit(value, size, index).Some? ==>
        Visit(value, size, 0).value == visited + Visit(value, size, index).value
      decreases size - index
    {
      if index + 4 > |value| { return visited, false; }
      var step := FromLe(value[index..index + 4]);
      if step == 0 { return visited, false; }
      visited, index := visited + [index], index + step;
    }
    clean := index == size;
  }

  /** The record starts, in order, and the end of the journal. */
  function Starts(frames: seq<Frame>): seq<nat> {
    seq(|frames| + 1, k requires 0 <= k <= |frames| => Start(frames, k))
  }

  /** The scan's buffer, of which the journal is a prefix. */
  ghost predicate Reads(value: seq<byte>, j: seq<byte>) { |j| <= |value| && value[..|j|] == j }

  lemma HeadIs(value: seq<byte>, j: seq<byte>, at: nat, x: seq<byte>)
    requires Reads(value, j) && 4 <= |x| && at + |x| <= |j| && j[at..at + |x|] == x
    ensures value[at..at + 4] == x[..4]
  {
    forall i | 0 <= i < 4 ensures value[at..at + 4][i] == x[..4][i] {
      assert value[at + i] == value[..|j|][at + i] == j[at + i] == j[at..at + |x|][i];
    }
  }

  lemma HeadAt(frames: seq<Frame>, k: nat, value: seq<byte>, at: nat)
    requires k < |frames| && 4 <= |frames[k].bytes| && Reads(value, Journal(frames)) && at == Start(frames, k)
    ensures at + |frames[k].bytes| == Start(frames, k + 1) <= |Journal(frames)|
    ensures value[at..at + 4] == Shown(frames[k])[..4]
  {
    FrameAt(frames, k);
    StartNext(frames, k);
    ShownLength(frames[k]);
    HeadIs(value, Journal(frames), at, Shown(frames[k]));
  }

  /** Where the size of a record points the scan: to the next record, short by the byte that was cleared. */
  lemma ShownSize(f: Frame)
    requires WellSized(f.bytes)
    ensures FromLe(Shown(f)[..4]) == |f.bytes| <==> Harmless(f)
  {
    LowByte(f.bytes);
  }

  /** The first byte of a size is its remainder by 256. */
  lemma LowByte(bytes: seq<byte>)
    requires WellSized(bytes)
    ensures FromLe(([0] + bytes[1..])[..4]) == |bytes| - |bytes| % 256
  {
    var head, zeroed := bytes[..4], ([0] + bytes[1..])[..4];
    assert head[1..] == bytes[1..4] == zeroed[1..];
    assert FromLe(head) == bytes[0] + 256 * FromLe(bytes[1..4]);
    assert FromLe(zeroed) == 0 + 256 * FromLe(bytes[1..4]);
  }

  /** The record's size still points to the next record. */
  predicate Harmless(f: Frame) { f.cleared ==> |f.bytes| % 256 == 0 }

  lemma StepAt(frames: seq<Frame>, k: nat, value: seq<byte>)
    requires k < |frames| && WellSized(frames[k].bytes) && Reads(value, Journal(frames))
    ensures Start(frames, k) < |Journal(frames)|
    ensures Steps(value, Start(frames, k), Start(frames, k + 1), Harmless(frames[k]))
  {
    HeadAt(frames, k, value, Start(frames, k));
    ShownSize(frames[k]);
  }

  /** At `a` the scan steps forward, to `b` exactly if `good`. */
  ghost predicate Steps(value: seq<byte>, a: nat, b: nat, good: bool) {
    a < b && a + 4 <= |value| && (a + FromLe(value[a..a + 4]) == b <==> good)
  }

  /** Along the positions `p` the scan takes the right step exactly where `good` says so. */
  ghost predicate Track(value: seq<byte>, p: seq<nat>, good: seq<bool>) {
    && |p| == |good| + 1
    && forall k :: 0 <= k < |good| ==> p[k] < p[|good|] && Steps(value, p[k], p[k + 1], good[k])
  }

  /** The scan follows a list of positions exactly when each size leads to the next one. */
  lemma VisitNext(value: seq<byte>, size: nat, at: nat, next: nat, tail: seq<nat>)
    requires at < next && at < size && at + 4 <= |value|
    requires if tail == [] then next == size else tail[0] == next && next < size
    ensures Visit(value, size, at) == Some([at] + tail)
      <==> at + FromLe(value[at..at + 4]) == next && Visit(value, size, next) == Some(tail)
  {
    var step, v := FromLe(value[at..at + 4]), Visit(value, size, at);
    if v == Some([at] + tail) {
      assert v.value[1..] == Visit(value, size, at + step).value == tail;
    }
  }

  lemma {:induction false} VisitFrom(value: seq<byte>, p: seq<nat>, good: seq<bool>, k: nat)
    requires Track(value, p, good) && k <= |good|
    ensures Visit(value, p[|good|], p[k]) == Some(p[k..|good|]) <==> forall j :: k <= j < |good| ==> good[j]
    decreases |good| - k
  {
    if k < |good| {
      VisitFrom(value, p, good, k + 1);
      VisitNext(value, p[|good|], p[k], p[k + 1], p[k + 1..|good|]);
      assert p[k..|good|] == [p[k]] + p[k + 1..|good|];
      assert Steps(value, p[k], p[k + 1], good[k]);
    } else {
      assert p[k..|good|] == [];
    }
  }

  lemma FirstStart(frames: seq<Frame>)
    ensures Start(frames, 0) == 0
  {
    assert frames[..0] == [];
  }

  lemma TrackStep(frames: seq<Frame>, value: seq<byte>, k: nat, a: nat, b: nat, good: bool)
    requires AllSized(frames) && Reads(value, Journal(frames)) && k < |frames|
    requires a == Start(frames, k) && b == Start(frames, k + 1) && good == Harmless(frames[k])
    ensures a < |Journal(frames)| && Steps(value, a, b, good)
  {
    assert SizedAt(frames, k);
    StepAt(frames, k, value);
  }

  ghost predicate AllHarmless(frames: seq<Frame>, good: seq<bool>) {
    |good| == |frames| && forall k :: 0 <= k < |frames| ==> good[k] == Harmless(frames[k])
  }

  ghost predicate AllStarts(frames: seq<Frame>, p: seq<nat>) {
    |p| == |frames| + 1 && forall k :: 0 <= k <= |frames| ==> p[k] == Start(frames, k)
  }

  lemma JournalTrack(frames: seq<Frame>, value: seq<byte>, p: seq<nat>, good: seq<bool>)
    requires AllSized(frames) && Reads(value, Journal(frames)) && AllStarts(frames, p) && AllHarmless(frames, good)
    ensures Track(value, p, good) && p[|good|] == |Journal(frames)|
  {
    WholeStart(frames);
    forall k | 0 <= k < |good| ensures p[k] < p[|good|] && Steps(value, p[k], p[k + 1], good[k]) {
      TrackStep(frames, value, k, p[k], p[k + 1], good[k]);
    }
  }

  /**
    Journal framing: when the journal fits one object, the scan visits exactly the record starts and ends at
    the object's size if and only if every checkpointed record has a size that is a multiple of 256.
   */
  lemma ScanVisitsRecords(frames: seq<Frame>)
    requires AllSized(frames) && |Journal(frames)| <= OBJ_SIZE
    ensures Visit(Image(Journal(frames)), |Journal(frames)|, 0) == Some(Starts(frames)[..|frames|])
      <==> forall k :: 0 <= k < |frames| ==> Harmless(frames[k])
  {
    var value := Image(Journal(frames));
    assert value[..|Journal(frames)|] == Journal(frames);
    var good := seq(|frames|, k requires 0 <= k < |frames| => Harmless(frames[k]));
    JournalTrack(frames, value, Starts(frames), good);
    VisitFrom(value, Starts(frames), good, 0);
    FirstStart(frames);
  }
}
