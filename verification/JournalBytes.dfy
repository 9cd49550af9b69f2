/**
  The journal pipeline together with the bytes of the journal objects (transaction::commit and checkpoint):
  commit asks for the size of the journal and then writes there, and checkpoints clear bytes in between.
 */
module JournalBytes {
  import opened Types
  import opened Transactions
  import opened Striping
  import opened DentryCodec
  import opened RecordCodec
  import opened Framing
  import P = Pipeline
  import Proof = PipelineProof
  import J = JournalTheorems
  import ThreadSteps

  /**
    `files` are the flat journals, `offsets` the field of each committed transaction, `size` what stat told the
    commit thread. The rest only observes: the journals at the start, the transactions whose records were laid
    in each journal, these records, and the transactions whose checkpoint has cleared its byte.
   */
  datatype State = State(
    p: P.State, files: map<Ino, seq<byte>>, offsets: map<nat, nat>, size: Option<nat>,
    before: map<Ino, seq<byte>>, laid: map<Ino, seq<nat>>, raws: map<nat, seq<byte>>, cleared: set<nat>)

  predicate Init(s: State) {
    && P.Init(s.p) && s.files == s.before && s.offsets == map[] && s.size == None
    && s.laid == map[] && s.raws == map[] && s.cleared == {}
  }

  function File(files: map<Ino, seq<byte>>, d: Ino): seq<byte> { if d in files then files[d] else [] }
  function Laid(laid: map<Ino, seq<nat>>, d: Ino): seq<nat> { if d in laid then laid[d] else [] }

  datatype Event =
    | Stat
    | Log(names: seq<Name>, inos: seq<Ino>)
    | Clear(w: nat)
    | Other(e: P.Event)

  /** The transaction the commit thread is working on. */
  function Current(p: P.State): nat
    requires P.CanAppend(p)
  {
    p.swapped[p.commit.dir]
  }

  ghost predicate Enabled(s: State, e: Event) {
    match e
    case Stat => P.CanAppend(s.p) && s.size == None
    case Log(names, inos) => P.CanAppend(s.p) && s.size.Some? && Orders(names, inos, s.p.txs[Current(s.p)])
    case Clear(w) => P.CanClear(s.p, w) && s.p.workers[w].tx < |s.p.txs|
    case Other(e) => P.Enabled(s.p, e) && !e.Append? && !e.Clear?
  }

  ghost function DoLog(s: State, names: seq<Name>, inos: seq<Ino>): State
    requires Enabled(s, Log(names, inos))
  {
    var d, id := s.p.commit.dir, Current(s.p);
    var raw := Record(names, inos, s.p.txs[id]);
    s.(p := P.DoAppend(s.p), files := s.files[d := Blend(File(s.files, d), raw, s.size.value)],
       offsets := s.offsets[id := s.size.value], size := None,
       laid := s.laid[d := Laid(s.laid, d) + [id]], raws := s.raws[id := raw])
  }

  ghost function DoClear(s: State, w: nat): State
    requires Enabled(s, Clear(w))
  {
    var id := s.p.workers[w].tx;
    var d, at := s.p.txs[id].dir, if id in s.offsets then s.offsets[id] else 0;
    s.(p := P.DoClear(s.p, w), files := s.files[d := Blend(File(s.files, d), [0], at)], cleared := s.cleared + {id})
  }

  ghost function Do(s: State, e: Event): State
    requires Enabled(s, e)
  {
    match e
    case Stat => s.(size := Some(|File(s.files, s.p.commit.dir)|))
    case Log(names, inos) => DoLog(s, names, inos)
    case Clear(w) => DoClear(s, w)
    case Other(e) => s.(p := P.Do(s.p, e))
  }

  ghost predicate Reaches(s0: State, events: seq<Event>, s: State)
    decreases |events|
  {
    if events == [] then s == s0
    else Enabled(s0, events[0]) && Reaches(Do(s0, events[0]), events[1..], s)
  }

  // ---- What every step keeps ----

  /** The records of a journal, as their checkpoints left them. */
  ghost function Frames(ids: seq<nat>, raws: map<nat, seq<byte>>, cleared: set<nat>): seq<Frame>
    requires Known(ids, raws)
  {
    seq(|ids|, k requires 0 <= k < |ids| => Frame(raws[ids[k]], ids[k] in cleared))
  }

  ghost predicate Distinct(ids: seq<nat>) { forall j, k :: 0 <= j < k < |ids| ==> ids[j] != ids[k] }

  /** Record `k` is not empty, and its transaction remembers where it starts. */
  ghost predicate At(ids: seq<nat>, frames: seq<Frame>, offsets: map<nat, nat>, skip: nat, k: nat) {
    && k < |ids| && k < |frames| && frames[k].bytes != []
    && ids[k] in offsets && offsets[ids[k]] == skip + Start(frames, k)
  }

  ghost predicate Placed(ids: seq<nat>, frames: seq<Frame>, offsets: map<nat, nat>, skip: nat) {
    forall k: nat {:trigger At(ids, frames, offsets, skip, k)} :: k < |ids| ==> At(ids, frames, offsets, skip, k)
  }

  ghost predicate Known(ids: seq<nat>, raws: map<nat, seq<byte>>) { forall k :: 0 <= k < |ids| ==> ids[k] in raws }

  /** A journal is what it was at the start, followed by its records. */
  ghost predicate Laying(
    file: seq<byte>, was: seq<byte>, ids: seq<nat>, raws: map<nat, seq<byte>>, offsets: map<nat, nat>,
    cleared: set<nat>)
  {
    && Distinct(ids) && Known(ids, raws)
    && Placed(ids, Frames(ids, raws, cleared), offsets, |was|)
    && file == was + Journal(Frames(ids, raws, cleared))
  }

  ghost predicate FileOk(s: State, d: Ino) {
    Laying(File(s.files, d), File(s.before, d), Laid(s.laid, d), s.raws, s.offsets, s.cleared)
  }

  ghost predicate Found(txs: seq<Tx>, laid: map<Ino, seq<nat>>, id: nat) {
    id < |txs| && txs[id].committed && id in Laid(laid, txs[id].dir)
  }

  ghost predicate AllOf(txs: seq<Tx>, ids: seq<nat>, d: Ino) {
    forall k :: 0 <= k < |ids| ==> ids[k] < |txs| && txs[ids[k]].dir == d
  }

  /** What was laid is in the journal of its directory, and its transaction is frozen. */
  ghost predicate LoggedOk(txs: seq<Tx>, laid: map<Ino, seq<nat>>, offsets: map<nat, nat>, raws: map<nat, seq<byte>>) {
    && (forall id :: id in offsets ==> Found(txs, laid, id))
    && (forall d :: AllOf(txs, Laid(laid, d), d))
    && RecordsIn(txs, offsets, raws)
  }

  ghost predicate RecordsIn(txs: seq<Tx>, offsets: map<nat, nat>, raws: map<nat, seq<byte>>) {
    forall id :: id in raws ==> id in offsets && id < |txs| && IsRecord(raws[id], txs[id])
  }

  /** Everything past the commit thread has been laid, what it has frozen has not. */
  ghost predicate PastOk(
    queues: seq<seq<nat>>, workers: seq<P.Worker>, commit: P.CommitPc, swapped: map<Ino, nat>, offsets: map<nat, nat>)
  {
    && (forall i, k :: 0 <= i < |queues| && 0 <= k < |queues[i]| ==> queues[i][k] in offsets)
    && (forall i :: 0 <= i < |workers| && !workers[i].Waiting? ==> workers[i].tx in offsets)
    && (commit.Logged? && commit.dir in swapped ==> swapped[commit.dir] in offsets)
    && (commit.Frozen? && commit.dir in swapped ==> swapped[commit.dir] !in offsets)
  }

  ghost predicate Past(p: P.State, offsets: map<nat, nat>) {
    PastOk(p.queues, p.workers, p.commit, p.swapped, offsets)
  }

  /** stat still tells the size: only the commit thread makes journals longer. */
  ghost predicate SizeOk(s: State) {
    s.size.Some? ==> s.p.commit.Frozen? && s.size.value == |File(s.files, s.p.commit.dir)|
  }

  ghost predicate Inv(s: State) {
    && Proof.Inv(s.p) && (forall d :: FileOk(s, d)) && s.cleared <= s.offsets.Keys
    && LoggedOk(s.p.txs, s.laid, s.offsets, s.raws) && Past(s.p, s.offsets) && SizeOk(s)
  }

  lemma InitInv(s: State)
    requires Init(s)
    ensures Inv(s)
  {
    ThreadSteps.InitInv(s.p);
    forall d ensures FileOk(s, d) {
      assert Frames(Laid(s.laid, d), s.raws, s.cleared) == [];
      assert File(s.before, d) + [] == File(s.before, d);
    }
  }

  // ---- One more record ----

  lemma FramesLonger(ids: seq<nat>, id: nat, raws: map<nat, seq<byte>>, raw: seq<byte>, cleared: set<nat>)
    requires Known(ids, raws) && (forall k :: 0 <= k < |ids| ==> ids[k] != id) && id !in cleared
    ensures Known(ids + [id], raws[id := raw])
    ensures Frames(ids + [id], raws[id := raw], cleared) == Frames(ids, raws, cleared) + [Frame(raw, false)]
  {
  }

  /** The new record starts where the journal ended; the others stay where they are. */
  lemma PlacedLonger(ids: seq<nat>, frames: seq<Frame>, offsets: map<nat, nat>, skip: nat, id: nat, raw: seq<byte>)
    requires |ids| == |frames| && Placed(ids, frames, offsets, skip) && raw != [] && id !in offsets
    ensures Placed(ids + [id], frames + [Frame(raw, false)], offsets[id := skip + |Journal(frames)|], skip)
  {
    var ids', frames', offsets' := ids + [id], frames + [Frame(raw, false)], offsets[id := skip + |Journal(frames)|];
    assert frames'[..|frames|] == frames;
    forall k: nat | k < |ids'| ensures At(ids', frames', offsets', skip, k) {
      if k < |ids| {
        assert At(ids, frames, offsets, skip, k);
        StartEarlier(frames, frames', k);
      } else {
        AtEnd(ids, frames, offsets, skip, id, raw);
      }
    }
  }

  lemma AtEnd(ids: seq<nat>, frames: seq<Frame>, offsets: map<nat, nat>, skip: nat, id: nat, raw: seq<byte>)
    requires |ids| == |frames| && raw != []
    ensures At(ids + [id], frames + [Frame(raw, false)], offsets[id := skip + |Journal(frames)|], skip, |ids|)
  {
    Snoc(frames, Frame(raw, false));
  }

  lemma StartEarlier(frames: seq<Frame>, frames': seq<Frame>, k: nat)
    requires k <= |frames| <= |frames'| && frames'[..|frames|] == frames
    ensures Start(frames', k) == Start(frames, k)
  {
    StartPrefix(frames', |frames|, k);
  }

  lemma NotYet(ids: seq<nat>, frames: seq<Frame>, offsets: map<nat, nat>, skip: nat, id: nat)
    requires Placed(ids, frames, offsets, skip) && id !in offsets
    ensures forall k :: 0 <= k < |ids| ==> ids[k] != id
  {
    forall k: nat | k < |ids| ensures ids[k] != id { assert At(ids, frames, offsets, skip, k); }
  }

  lemma LogLays(
      file: seq<byte>, was: seq<byte>, ids: seq<nat>, raws: map<nat, seq<byte>>, offsets: map<nat, nat>,
      cleared: set<nat>, id: nat, raw: seq<byte>)
    requires Laying(file, was, ids, raws, offsets, cleared)
    requires raw != [] && id !in offsets && cleared <= offsets.Keys
    ensures Laying(file + raw, was, ids + [id], raws[id := raw], offsets[id := |file|], cleared)
  {
    var frames := Frames(ids, raws, cleared);
    NotYet(ids, frames, offsets, |was|, id);
    FramesLonger(ids, id, raws, raw, cleared);
    PlacedLonger(ids, frames, offsets, |was|, id, raw);
    LongerFile(was, frames, raw);
    StillDistinct(ids, id);
    assert |file| == |was| + |Journal(frames)|;
  }

  lemma StillDistinct(ids: seq<nat>, id: nat)
    requires Distinct(ids) && forall k :: 0 <= k < |ids| ==> ids[k] != id
    ensures Distinct(ids + [id])
  {
  }

  lemma LongerFile(was: seq<byte>, frames: seq<Frame>, raw: seq<byte>)
    ensures (was + Journal(frames)) + raw == was + Journal(frames + [Frame(raw, false)])
  {
    Snoc(frames, Frame(raw, false));
    Regroup(was, Journal(frames), raw);
  }

  lemma PlacedStill(ids: seq<nat>, frames: seq<Frame>, offsets: map<nat, nat>, skip: nat, offsets': map<nat, nat>)
    requires Placed(ids, frames, offsets, skip)
    requires forall i :: i in offsets ==> i in offsets' && offsets'[i] == offsets[i]
    ensures Placed(ids, frames, offsets', skip)
  {
    forall k: nat | k < |ids| ensures At(ids, frames, offsets', skip, k) { assert At(ids, frames, offsets, skip, k); }
  }

  /** Records in other journals are not touched. */
  lemma LogElsewhere(
      file: seq<byte>, was: seq<byte>, ids: seq<nat>, raws: map<nat, seq<byte>>, offsets: map<nat, nat>,
      cleared: set<nat>, id: nat, raw: seq<byte>, at: nat)
    requires Laying(file, was, ids, raws, offsets, cleared) && id !in offsets
    ensures Laying(file, was, ids, raws[id := raw], offsets[id := at], cleared)
  {
    var frames := Frames(ids, raws, cleared);
    NotYet(ids, frames, offsets, |was|, id);
    assert Frames(ids, raws[id := raw], cleared) == frames;
    PlacedStill(ids, frames, offsets, |was|, offsets[id := at]);
  }

  // ---- A record is cleared ----

  lemma FramesCleared(ids: seq<nat>, k: nat, raws: map<nat, seq<byte>>, cleared: set<nat>)
    requires Distinct(ids) && k < |ids| && Known(ids, raws)
    ensures var frames := Frames(ids, raws, cleared);
      Frames(ids, raws, cleared + {ids[k]}) == frames[k := frames[k].(cleared := true)]
  {
  }

  lemma PlacedCleared(ids: seq<nat>, frames: seq<Frame>, offsets: map<nat, nat>, skip: nat, k: nat)
    requires |ids| == |frames| && Placed(ids, frames, offsets, skip) && k < |frames|
    ensures Placed(ids, frames[k := frames[k].(cleared := true)], offsets, skip)
  {
    var frames' := frames[k := frames[k].(cleared := true)];
    forall j: nat | j < |ids| ensures At(ids, frames', offsets, skip, j) {
      assert At(ids, frames, offsets, skip, j);
      SameStarts(frames', frames, j);
    }
  }

  lemma ZeroAfter(was: seq<byte>, j: seq<byte>, at: nat)
    requires at < |j|
    ensures (was + j)[|was| + at := 0] == was + j[at := 0]
  {
  }

  lemma ClearLays(
      file: seq<byte>, was: seq<byte>, ids: seq<nat>, raws: map<nat, seq<byte>>, offsets: map<nat, nat>,
      cleared: set<nat>, k: nat)
    requires Laying(file, was, ids, raws, offsets, cleared) && k < |ids|
    ensures ids[k] in offsets && offsets[ids[k]] < |file|
    ensures Laying(file[offsets[ids[k]] := 0], was, ids, raws, offsets, cleared + {ids[k]})
  {
    var frames := Frames(ids, raws, cleared);
    assert At(ids, frames, offsets, |was|, k);
    FramesCleared(ids, k, raws, cleared);
    PlacedCleared(ids, frames, offsets, |was|, k);
    ClearOne(frames, k);
    ZeroAfter(was, Journal(frames), Start(frames, k));
  }

  lemma ClearElsewhere(
      file: seq<byte>, was: seq<byte>, ids: seq<nat>, raws: map<nat, seq<byte>>, offsets: map<nat, nat>,
      cleared: set<nat>, id: nat)
    requires Laying(file, was, ids, raws, offsets, cleared) && forall k :: 0 <= k < |ids| ==> ids[k] != id
    ensures Laying(file, was, ids, raws, offsets, cleared + {id})
  {
    assert Frames(ids, raws, cleared + {id}) == Frames(ids, raws, cleared);
  }

  // ---- Steps ----

  lemma LogFiles(s: State, names: seq<Name>, inos: seq<Ino>, d: Ino)
    requires FileOk(s, d) && SizeOk(s) && s.cleared <= s.offsets.Keys && Enabled(s, Log(names, inos))
    requires Current(s.p) !in s.offsets
    ensures FileOk(DoLog(s, names, inos), d)
  {
    var c, id, s' := s.p.commit.dir, Current(s.p), DoLog(s, names, inos);
    var raw, file, was, ids := Record(names, inos, s.p.txs[id]), File(s.files, d), File(s.before, d), Laid(s.laid, d);
    FileSet(s.files, c, Blend(File(s.files, c), raw, s.size.value), d);
    LaidLonger(s.laid, s'.laid, c, id);
    if d == c {
      LogFile(file, was, ids, s.raws, s.offsets, s.cleared, id, raw, s.size.value);
    } else {
      LogElsewhere(file, was, ids, s.raws, s.offsets, s.cleared, id, raw, s.size.value);
    }
  }

  lemma LogFile(
      file: seq<byte>, was: seq<byte>, ids: seq<nat>, raws: map<nat, seq<byte>>, offsets: map<nat, nat>,
      cleared: set<nat>, id: nat, raw: seq<byte>, size: nat)
    requires Laying(file, was, ids, raws, offsets, cleared) && size == |file|
    requires raw != [] && id !in offsets && cleared <= offsets.Keys
    ensures Laying(Blend(file, raw, size), was, ids + [id], raws[id := raw], offsets[id := size], cleared)
  {
    WriteAtEnd(file, raw);
    LogLays(file, was, ids, raws, offsets, cleared, id, raw);
  }

  lemma LoggedLonger(
      txs: seq<Tx>, laid: map<Ino, seq<nat>>, offsets: map<nat, nat>, raws: map<nat, seq<byte>>, id: nat, at: nat,
      raw: seq<byte>)
    requires LoggedOk(txs, laid, offsets, raws) && id < |txs| && txs[id].committed && IsRecord(raw, txs[id])
    ensures var d := txs[id].dir;
      LoggedOk(txs, laid[d := Laid(laid, d) + [id]], offsets[id := at], raws[id := raw])
  {
    var d := txs[id].dir;
    var laid' := laid[d := Laid(laid, d) + [id]];
    LaidLonger(laid, laid', d, id);
    forall i | i in offsets[id := at] ensures Found(txs, laid', i) {
      if i != id { StillFound(txs, laid, laid', d, id, i); }
    }
    forall c ensures AllOf(txs, Laid(laid', c), c) { StillAllOf(txs, laid, laid', c, id); }
    StillRecords(txs, offsets, raws, id, at, raw);
  }

  lemma StillRecords(
      txs: seq<Tx>, offsets: map<nat, nat>, raws: map<nat, seq<byte>>, id: nat, at: nat, raw: seq<byte>)
    requires RecordsIn(txs, offsets, raws) && id < |txs| && IsRecord(raw, txs[id])
    ensures RecordsIn(txs, offsets[id := at], raws[id := raw])
  {
  }

  lemma StillFound(txs: seq<Tx>, laid: map<Ino, seq<nat>>, laid': map<Ino, seq<nat>>, d: Ino, id: nat, i: nat)
    requires Found(txs, laid, i) && laid' == laid[d := Laid(laid, d) + [id]]
    ensures Found(txs, laid', i)
  {
  }

  lemma StillAllOf(txs: seq<Tx>, laid: map<Ino, seq<nat>>, laid': map<Ino, seq<nat>>, c: Ino, id: nat)
    requires AllOf(txs, Laid(laid, c), c) && id < |txs|
    requires laid' == laid[txs[id].dir := Laid(laid, txs[id].dir) + [id]]
    ensures AllOf(txs, Laid(laid', c), c)
  {
  }

  lemma LaidLonger(laid: map<Ino, seq<nat>>, laid': map<Ino, seq<nat>>, d: Ino, id: nat)
    requires laid' == laid[d := Laid(laid, d) + [id]]
    ensures Laid(laid', d) == Laid(laid, d) + [id] && id in Laid(laid', d)
    ensures forall c :: c != d ==> Laid(laid', c) == Laid(laid, c)
  {
    assert (Laid(laid, d) + [id])[|Laid(laid, d)|] == id;
  }

  lemma LogKeeps(s: State, names: seq<Name>, inos: seq<Ino>)
    requires Inv(s) && Enabled(s, Log(names, inos))
    ensures Inv(DoLog(s, names, inos))
  {
    var id, s' := Current(s.p), DoLog(s, names, inos);
    var raw := Record(names, inos, s.p.txs[id]);
    J.StepKeeps(s.p, P.Append);
    Committed(s.p);
    forall d ensures FileOk(s', d) {
      assert FileOk(s, d);
      LogFiles(s, names, inos, d);
    }
    assert IsRecord(raw, s.p.txs[id]);
    LoggedLonger(s.p.txs, s.laid, s.offsets, s.raws, id, s.size.value, raw);
    AppendPast(s.p, s.offsets, s.size.value);
  }

  lemma Committed(p: P.State)
    requires Proof.SwapOk(p.txs, p.table, p.swapped, p.commit) && P.CanAppend(p)
    ensures p.txs[Current(p)].committed && p.txs[Current(p)].dir == p.commit.dir
  {
    assert Proof.Committing(p.commit, p.commit.dir);
  }

  lemma AppendPast(p: P.State, offsets: map<nat, nat>, at: nat)
    requires Past(p, offsets) && P.CanAppend(p)
    ensures Past(P.DoAppend(p), offsets[Current(p) := at])
  {
  }

  /** The worker's transaction was laid in the journal of its directory, and in no other. */
  lemma ClearFiles(s: State, s': State, w: nat, d: Ino)
    requires FileOk(s, d) && LoggedOk(s.p.txs, s.laid, s.offsets, s.raws) && Enabled(s, Clear(w))
    requires s.p.workers[w].tx in s.offsets && s' == DoClear(s, w)
    ensures FileOk(s', d) && |File(s'.files, d)| == |File(s.files, d)|
  {
    var id := s.p.workers[w].tx;
    var c, ids, file, was := s.p.txs[id].dir, Laid(s.laid, d), File(s.files, d), File(s.before, d);
    FileSet(s.files, c, Blend(File(s.files, c), [0], s.offsets[id]), d);
    assert Found(s.p.txs, s.laid, id);
    if d == c {
      ClearFile(file, was, ids, s.raws, s.offsets, s.cleared, id);
    } else {
      assert AllOf(s.p.txs, ids, d);
      ClearElsewhere(file, was, ids, s.raws, s.offsets, s.cleared, id);
    }
  }

  lemma FileSet(files: map<Ino, seq<byte>>, c: Ino, x: seq<byte>, d: Ino)
    ensures File(files[c := x], d) == if d == c then x else File(files, d)
  {
  }

  lemma ClearFile(
      file: seq<byte>, was: seq<byte>, ids: seq<nat>, raws: map<nat, seq<byte>>, offsets: map<nat, nat>,
      cleared: set<nat>, id: nat)
    requires Laying(file, was, ids, raws, offsets, cleared) && id in ids && id in offsets
    ensures Laying(Blend(file, [0], offsets[id]), was, ids, raws, offsets, cleared + {id})
    ensures |Blend(file, [0], offsets[id])| == |file|
  {
    var k :| 0 <= k < |ids| && ids[k] == id;
    ClearLays(file, was, ids, raws, offsets, cleared, k);
    WriteZero(file, offsets[id]);
  }

  lemma ClearPast(p: P.State, w: nat, offsets: map<nat, nat>)
    requires Past(p, offsets) && P.CanClear(p, w)
    ensures Past(P.DoClear(p, w), offsets) && p.workers[w].tx in offsets
  {
  }

  lemma ClearSize(s: State, s': State, w: nat)
    requires SizeOk(s) && Enabled(s, Clear(w)) && s' == DoClear(s, w)
    requires forall d :: |File(s'.files, d)| == |File(s.files, d)|
    ensures SizeOk(s') && s'.p.txs == s.p.txs
  {
  }

  lemma ClearKeeps(s: State, w: nat)
    requires Inv(s) && Enabled(s, Clear(w))
    ensures Inv(DoClear(s, w))
  {
    var s' := DoClear(s, w);
    J.StepKeeps(s.p, P.Clear(w));
    ClearPast(s.p, w, s.offsets);
    forall d ensures FileOk(s', d) && |File(s'.files, d)| == |File(s.files, d)| {
      assert FileOk(s, d);
      ClearFiles(s, s', w, d);
    }
    ClearSize(s, s', w);
  }

  /** Steps of the other kinds change no transaction that was laid. */
  lemma LoggedKept(
      txs: seq<Tx>, txs': seq<Tx>, laid: map<Ino, seq<nat>>, offsets: map<nat, nat>, raws: map<nat, seq<byte>>)
    requires LoggedOk(txs, laid, offsets, raws) && Proof.KeepsCommitted(txs, txs')
    ensures LoggedOk(txs', laid, offsets, raws)
  {
    forall id | id in offsets ensures Found(txs', laid, id) { assert Found(txs, laid, id); }
    forall d ensures AllOf(txs', Laid(laid, d), d) { assert AllOf(txs, Laid(laid, d), d); }
    forall id | id in raws ensures IsRecord(raws[id], txs'[id]) { assert Found(txs, laid, id); }
  }

  lemma TxsKept(p: P.State, e: P.Event)
    requires Proof.SwapOk(p.txs, p.table, p.swapped, p.commit) && P.Enabled(p, e)
    ensures Proof.KeepsCommitted(p.txs, P.Do(p, e).txs)
  {
    match e {
      case Insert(_) =>
      case Apply(t) => LandedKept(p, t, Merged(p.txs[p.threads[t].tx], p.threads[t].call.op));
      case Freeze(d) => assert !p.txs[p.swapped[d]].committed;
      case ReplaceMap =>
      case Issue =>
      case _ => Proof.MovesOnly(p, e);
    }
  }

  lemma LandedKept(p: P.State, t: nat, m: Merge)
    requires P.CanApply(p, t) && m.tx.dir == p.txs[p.threads[t].tx].dir
    requires p.txs[p.threads[t].tx].committed ==> !m.outcome.Effective()
    ensures Proof.KeepsCommitted(p.txs, P.Landed(p, t, m).txs)
  {
    var p' := P.Landed(p, t, m);
    if m.outcome.Effective() {
      assert p'.txs == p.txs[p.threads[t].tx := m.tx];
    } else {
      assert p'.txs == p.txs;
    }
  }

  lemma PastKept(p: P.State, e: P.Event, offsets: map<nat, nat>)
    requires Proof.SwapOk(p.txs, p.table, p.swapped, p.commit) && Past(p, offsets) && P.Enabled(p, e) && !e.Append?
    requires forall id :: id in offsets ==> id < |p.txs| && p.txs[id].committed
    ensures Past(P.Do(p, e), offsets)
  {
    match e {
      case Freeze(d) => assert !p.txs[p.swapped[d]].committed;
      case ReplaceMap =>
      case Issue => IssuePast(p, offsets);
      case Dispatch(w) => DispatchPast(p, w, offsets);
      case Load(w) => LoadPast(p, w, offsets);
      case Write(w) => WritePast(p, w, offsets);
      case Clear(w) => ClearPast(p, w, offsets);
      case _ => ThreadPast(p, e);
    }
  }

  lemma ThreadPast(p: P.State, e: P.Event)
    requires P.Enabled(p, e) && (e.Begin? || e.Find? || e.Insert? || e.Apply?)
    ensures var p' := P.Do(p, e);
      p'.queues == p.queues && p'.workers == p.workers && p'.commit == p.commit && p'.swapped == p.swapped
  {
    match e {
      case Apply(t) => LandedPast(p, t, Merged(p.txs[p.threads[t].tx], p.threads[t].call.op));
      case _ =>
    }
  }

  lemma LandedPast(p: P.State, t: nat, m: Merge)
    requires P.CanApply(p, t)
    ensures var p' := P.Landed(p, t, m);
      p'.queues == p.queues && p'.workers == p.workers && p'.commit == p.commit && p'.swapped == p.swapped
  {
  }

  lemma LoadPast(p: P.State, w: nat, offsets: map<nat, nat>)
    requires Past(p, offsets) && P.CanLoad(p, w)
    ensures Past(P.DoLoad(p, w), offsets)
  {
  }

  lemma WritePast(p: P.State, w: nat, offsets: map<nat, nat>)
    requires Past(p, offsets) && P.CanWrite(p, w)
    ensures Past(P.DoWrite(p, w), offsets)
  {
  }

  lemma IssuePast(p: P.State, offsets: map<nat, nat>)
    requires Past(p, offsets) && P.CanIssue(p)
    ensures Past(P.DoIssue(p), offsets)
  {
  }

  lemma DispatchPast(p: P.State, w: nat, offsets: map<nat, nat>)
    requires Past(p, offsets) && P.CanDispatch(p, w)
    ensures Past(P.DoDispatch(p, w), offsets)
  {
    var p' := P.DoDispatch(p, w);
    forall i, k | 0 <= i < |p'.queues| && 0 <= k < |p'.queues[i]| ensures p'.queues[i][k] in offsets {
      assert p'.queues[i][k] == p.queues[i][if i == w then k + 1 else k];
    }
  }

  lemma OtherKeeps(s: State, e: P.Event)
    requires Inv(s) && Enabled(s, Other(e))
    ensures Inv(Do(s, Other(e)))
  {
    var s' := Do(s, Other(e));
    J.StepKeeps(s.p, e);
    TxsKept(s.p, e);
    LoggedKept(s.p.txs, s'.p.txs, s.laid, s.offsets, s.raws);
    forall id | id in s.offsets ensures id < |s.p.txs| && s.p.txs[id].committed {
      assert Found(s.p.txs, s.laid, id);
    }
    PastKept(s.p, e, s.offsets);
    forall d ensures FileOk(s', d) { assert FileOk(s, d); }
    SizeKept(s, e);
  }

  /** While the commit thread is between stat and write, no other step moves it. */
  lemma SizeKept(s: State, e: P.Event)
    requires SizeOk(s) && Enabled(s, Other(e))
    ensures SizeOk(Do(s, Other(e)))
  {
    if s.size.Some? {
      if e.Begin? || e.Find? || e.Insert? || e.Apply? { ThreadPast(s.p, e); } else { WorkerCommit(s.p, e); }
    }
  }

  lemma WorkerCommit(p: P.State, e: P.Event)
    requires P.Enabled(p, e) && p.commit.Frozen? && !e.Append? && !(e.Begin? || e.Find? || e.Insert? || e.Apply?)
    ensures P.Do(p, e).commit == p.commit
  {
  }

  lemma StepKeeps(s: State, e: Event)
    requires Inv(s) && Enabled(s, e)
    ensures Inv(Do(s, e))
  {
    match e {
      case Stat => forall d ensures FileOk(Do(s, e), d) { assert FileOk(s, d); }
      case Log(names, inos) => LogKeeps(s, names, inos);
      case Clear(w) => ClearKeeps(s, w);
      case Other(e) => OtherKeeps(s, e);
    }
  }

  lemma {:induction false} RunKeeps(s0: State, events: seq<Event>, s: State)
    requires Inv(s0) && Reaches(s0, events, s)
    ensures Inv(s)
    decreases |events|
  {
    if events != [] {
      StepKeeps(s0, events[0]);
      RunKeeps(Do(s0, events[0]), events[1..], s);
    }
  }

  // ---- Theorems ----

  ghost function FramesOf(s: State, d: Ino): seq<Frame>
    requires Known(Laid(s.laid, d), s.raws)
  {
    Frames(Laid(s.laid, d), s.raws, s.cleared)
  }

  /**
    However commits and checkpoints interleave, at every instant a journal is what it was at the start followed
    by the records of its directory's transactions, end to end in the order they were committed; each record is
    the frozen transaction serialized, the transaction remembers where it starts, and all that checkpoints have
    changed is the first byte of their own records.
   */
  lemma RecordsEndToEnd(s0: State, events: seq<Event>, s: State, d: Ino)
    requires Init(s0) && Reaches(s0, events, s)
    ensures Known(Laid(s.laid, d), s.raws) && Distinct(Laid(s.laid, d))
    ensures File(s.files, d) == File(s.before, d) + Journal(FramesOf(s, d))
    ensures Placed(Laid(s.laid, d), FramesOf(s, d), s.offsets, |File(s.before, d)|)
    ensures forall k :: 0 <= k < |Laid(s.laid, d)| ==> OwnRecord(s, d, Laid(s.laid, d)[k])
  {
    InitInv(s0);
    RunKeeps(s0, events, s);
    assert FileOk(s, d);
    var ids := Laid(s.laid, d);
    forall k | 0 <= k < |ids| ensures OwnRecord(s, d, ids[k]) { LaidIsRecord(s, d, k); }
  }

  /** The record laid for `id` is that frozen transaction of `d`, serialized. */
  ghost predicate OwnRecord(s: State, d: Ino, id: nat) {
    && id < |s.p.txs| && s.p.txs[id].dir == d && s.p.txs[id].committed
    && id in s.raws && IsRecord(s.raws[id], s.p.txs[id])
  }

  lemma LaidIsRecord(s: State, d: Ino, k: nat)
    requires LoggedOk(s.p.txs, s.laid, s.offsets, s.raws) && Known(Laid(s.laid, d), s.raws) && k < |Laid(s.laid, d)|
    ensures OwnRecord(s, d, Laid(s.laid, d)[k])
  {
    assert AllOf(s.p.txs, Laid(s.laid, d), d);
    assert Found(s.p.txs, s.laid, Laid(s.laid, d)[k]);
  }

  lemma RecordFits(raw: seq<byte>, tx: Tx)
    requires IsRecord(raw, tx) && |raw| <= OBJ_SIZE
    ensures WellSized(raw)
  {
    var names, inos :| Orders(names, inos, tx) && raw == Record(names, inos, tx);
    RecordSized(names, inos, tx);
  }

  /**
    In every run, for a journal that was empty at the start and fits one object, the scan visits exactly the
    starts of the records that were committed and ends at the object's size, if and only if the size of every
    checkpointed record is a multiple of 256.
   */
  lemma ScanInRuns(s0: State, events: seq<Event>, s: State, d: Ino)
    requires Init(s0) && Reaches(s0, events, s) && File(s.before, d) == [] && |File(s.files, d)| <= OBJ_SIZE
    ensures Known(Laid(s.laid, d), s.raws)
    ensures var file, frames := File(s.files, d), FramesOf(s, d);
      Visit(Image(file), |file|, 0) == Some(Starts(frames)[..|frames|]) <==>
        forall k :: 0 <= k < |frames| ==> Harmless(frames[k])
  {
    RecordsEndToEnd(s0, events, s, d);
    var frames := FramesOf(s, d);
    assert File(s.files, d) == Journal(frames);
    forall k | 0 <= k < |frames| ensures SizedAt(frames, k) {
      assert OwnRecord(s, d, Laid(s.laid, d)[k]);
      FrameAt(frames, k);
      RecordFits(frames[k].bytes, s.p.txs[Laid(s.laid, d)[k]]);
    }
    ScanVisitsRecords(frames);
  }
}
