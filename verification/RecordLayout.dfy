/** Where each field of a journal record is, byte by byte (transaction::serialize). */
module RecordLayout {
  import opened Types
  import opened Transactions
  import opened DentryCodec
  import opened RecordCodec

  /** Bytes that were put between `pre` and `post`. */
  lemma Between(pre: seq<byte>, part: seq<byte>, post: seq<byte>, raw: seq<byte>)
    requires raw == pre + (part + post)
    ensures |pre| + |part| <= |raw| && raw[|pre|..|pre| + |part|] == part
  {
  }

  lemma Deeper(pre: seq<byte>, a: seq<byte>, b: seq<byte>, raw: seq<byte>)
    requires raw == pre + (a + b)
    ensures raw == (pre + a) + b
  {
  }

  function InodeSize(i: Inode): nat { 4 + INODE_CORE_SIZE + |i.link| }

  function SelfSize(self: Option<Inode>): nat { if self.Some? then InodeSize(self.value) else 4 }

  function FilesSize(order: seq<Ino>, files: map<Ino, Option<Inode>>): nat
    requires forall k :: 0 <= k < |order| ==> order[k] in files
  {
    if order == [] then 0
    else
      var f := files[order[|order| - 1]];
      FilesSize(order[..|order| - 1], files) + if f.Some? then InodeSize(f.value) else 0
  }

  /** An inode at `at`: its size as a little-endian int, the block, the link target. */
  predicate InodeAt(raw: seq<byte>, at: nat, i: Inode) {
    && at + InodeSize(i) <= |raw| && raw[at..at + 4] == ToLe(INODE_CORE_SIZE + |i.link|, 4)
    && raw[at + 4..at + 4 + INODE_CORE_SIZE] == i.core
    && raw[at + 4 + INODE_CORE_SIZE..at + InodeSize(i)] == i.link
  }

  lemma InodeFields(raw: seq<byte>, at: nat, i: Inode)
    requires at + InodeSize(i) <= |raw| && raw[at..at + InodeSize(i)] == InodeBytes(i)
    ensures InodeAt(raw, at, i)
  {
    var b := InodeBytes(i);
    SliceOfSlice(raw, at, at + |b|, 0, 4);
    SliceOfSlice(raw, at, at + |b|, 4, 4 + INODE_CORE_SIZE);
    SliceOfSlice(raw, at, at + |b|, 4 + INODE_CORE_SIZE, |b|);
    assert b[0..4] == ToLe(INODE_CORE_SIZE + |i.link|, 4);
    assert b[4..4 + INODE_CORE_SIZE] == i.core && b[4 + INODE_CORE_SIZE..|b|] == i.link;
  }

  lemma {:induction false} MarksSplit(order: seq<Name>, marks: map<Name, Mark>, k: nat) returns (tail: seq<byte>)
    requires (forall j :: 0 <= j < |order| ==> order[j] in marks) && k < |order|
    ensures MarksBytes(order, marks) == MarksBytes(order[..k], marks) + (MarkBytes(order[k], marks[order[k]]) + tail)
    decreases |order|
  {
    var init, n := order[..|order| - 1], order[|order| - 1];
    if k == |order| - 1 {
      tail := [];
      assert order[..k] == init;
    } else {
      var less := MarksSplit(init, marks, k);
      assert init[..k] == order[..k];
      tail := less + MarkBytes(n, marks[n]);
      Regroup(MarksBytes(init[..k], marks), MarkBytes(order[k], marks[order[k]]) + less, MarkBytes(n, marks[n]));
      Regroup(MarkBytes(order[k], marks[order[k]]), less, MarkBytes(n, marks[n]));
    }
  }

  lemma {:induction false} FilesSplit(order: seq<Ino>, files: map<Ino, Option<Inode>>, k: nat)
      returns (tail: seq<byte>)
    requires (forall j :: 0 <= j < |order| ==> order[j] in files) && k < |order|
    ensures FilesBytes(order, files) == FilesBytes(order[..k], files) + (FileBytes(files[order[k]]) + tail)
    decreases |order|
  {
    var init, i := order[..|order| - 1], order[|order| - 1];
    if k == |order| - 1 {
      tail := [];
      assert order[..k] == init;
    } else {
      var less := FilesSplit(init, files, k);
      assert init[..k] == order[..k];
      tail := less + FileBytes(files[i]);
      Regroup(FilesBytes(init[..k], files), FileBytes(files[order[k]]) + less, FileBytes(files[i]));
      Regroup(FileBytes(files[order[k]]), less, FileBytes(files[i]));
    }
  }

  lemma {:induction false} FilesBytesSize(order: seq<Ino>, files: map<Ino, Option<Inode>>)
    requires forall k :: 0 <= k < |order| ==> order[k] in files
    ensures |FilesBytes(order, files)| == FilesSize(order, files)
  {
    if order != [] { FilesBytesSize(order[..|order| - 1], files); }
  }

  /** The parts of a record, one after the other. */
  lemma Parts(names: seq<Name>, inos: seq<Ino>, tx: Tx) returns (head: seq<byte>, lists: seq<byte>)
    requires forall k :: 0 <= k < |names| ==> names[k] in tx.dentries
    requires forall k :: 0 <= k < |inos| ==> inos[k] in tx.files
    ensures |head| == 5 && head[4] == 1 && lists == FilesBytes(inos, tx.files) + END
    ensures Record(names, inos, tx) == (head + SelfBytes(tx.self)) + (MarksBytes(names, tx.dentries) + ([255] + lists))
  {
    head, lists := ToLe(4 + |Body(names, inos, tx)|, 4) + [1], FilesBytes(inos, tx.files) + END;
    var marks := MarksBytes(names, tx.dentries) + ([255] + lists);
    assert Body(names, inos, tx) == [1] + (SelfBytes(tx.self) + marks);
    Regroup(ToLe(4 + |Body(names, inos, tx)|, 4), [1], SelfBytes(tx.self) + marks);
    Regroup(head, SelfBytes(tx.self), marks);
  }

  /** The valid byte, then the directory's inode, or -1 when there is none. */
  lemma SelfWritten(names: seq<Name>, inos: seq<Ino>, tx: Tx)
    requires Orders(names, inos, tx)
    ensures var raw := Record(names, inos, tx);
      && |raw| > 9 && raw[4] == 1
      && if tx.self.Some? then InodeAt(raw, 5, tx.self.value) else raw[5..9] == [255, 255, 255, 255]
  {
    var raw := Record(names, inos, tx);
    var head, lists := Parts(names, inos, tx);
    var rest := MarksBytes(names, tx.dentries) + ([255] + lists);
    Regroup(head, SelfBytes(tx.self), rest);
    Between(head, SelfBytes(tx.self), rest, raw);
    if tx.self.Some? { InodeFields(raw, 5, tx.self.value); }
    assert raw[4] == head[4];
  }

  /** A mark at `at`: 1 for an added name and 0 for a deleted one, the name's length, the name, the inode number. */
  predicate MarkAt(raw: seq<byte>, at: nat, n: Name, m: Mark) {
    && at + 21 + |n| <= |raw| && raw[at] == (if m.alive then 1 else 0) && raw[at + 1..at + 5] == ToLe(|n|, 4)
    && raw[at + 5..at + 5 + |n|] == n && raw[at + 5 + |n|..at + 21 + |n|] == m.ino
  }

  /** Mark `k` of the order walked stands behind those before it. */
  lemma MarkWritten(names: seq<Name>, inos: seq<Ino>, tx: Tx, k: nat)
    requires Orders(names, inos, tx) && k < |names|
    ensures MarkAt(
      Record(names, inos, tx), 5 + SelfSize(tx.self) + MarksSize(names[..k]), names[k], tx.dentries[names[k]])
  {
    var head, lists := Parts(names, inos, tx);
    MarkInList(
      Record(names, inos, tx), head + SelfBytes(tx.self), names, tx.dentries, [255] + lists, k,
      5 + SelfSize(tx.self) + MarksSize(names[..k]));
  }

  lemma MarkInList(
      raw: seq<byte>, pre: seq<byte>, names: seq<Name>, marks: map<Name, Mark>, rest: seq<byte>, k: nat, at: nat)
    requires (forall j :: 0 <= j < |names| ==> names[j] in marks) && k < |names|
    requires raw == pre + (MarksBytes(names, marks) + rest) && at == |pre| + MarksSize(names[..k])
    ensures MarkAt(raw, at, names[k], marks[names[k]])
  {
    var tail := MarksSplit(names, marks, k);
    MarksBytesSize(names[..k], marks);
    Buried(pre, MarksBytes(names[..k], marks), MarkBytes(names[k], marks[names[k]]), tail, rest, raw);
    MarkFields(raw, at, names[k], marks[names[k]]);
  }

  lemma Buried(pre: seq<byte>, before: seq<byte>, e: seq<byte>, tail: seq<byte>, last: seq<byte>, raw: seq<byte>)
    requires raw == pre + ((before + (e + tail)) + last)
    ensures var at := |pre| + |before|; at + |e| <= |raw| && raw[at..at + |e|] == e
  {
    var at := |pre| + |before|;
    forall i | 0 <= i < |e| ensures raw[at..at + |e|][i] == e[i] {
      assert raw[at + i] == ((before + (e + tail)) + last)[|before| + i] == (e + tail)[i];
    }
  }

  lemma MarkFields(raw: seq<byte>, at: nat, n: Name, m: Mark)
    requires at + 21 + |n| <= |raw| && raw[at..at + 21 + |n|] == MarkBytes(n, m)
    ensures MarkAt(raw, at, n, m)
  {
    var head: seq<byte> := [if m.alive then 1 else 0];
    var e := head + (ToLe(|n|, 4) + (n + m.ino));
    Nested(head, ToLe(|n|, 4), n, m.ino, []);
    assert e + [] == e && m.ino + [] == m.ino;
    Fields(raw, at, e, |n|);
  }

  /** Slices of a part are slices of the whole. */
  lemma Fields(raw: seq<byte>, at: nat, e: seq<byte>, n: nat)
    requires |e| == 21 + n && at + |e| <= |raw| && raw[at..at + |e|] == e
    ensures raw[at] == e[0] && raw[at + 1..at + 5] == e[1..5]
    ensures raw[at + 5..at + 5 + n] == e[5..5 + n] && raw[at + 5 + n..at + 21 + n] == e[5 + n..21 + n]
  {
    assert raw[at] == raw[at..at + |e|][0];
    SliceOfSlice(raw, at, at + |e|, 1, 5);
    SliceOfSlice(raw, at, at + |e|, 5, 5 + n);
    SliceOfSlice(raw, at, at + |e|, 5 + n, |e|);
  }

  /** The byte -1 ends the marks, and the record ends with the int -1. */
  lemma ListsEnd(names: seq<Name>, inos: seq<Ino>, tx: Tx)
    requires Orders(names, inos, tx)
    ensures var raw, at := Record(names, inos, tx), 5 + SelfSize(tx.self) + MarksSize(names);
      && |raw| == at + 1 + FilesSize(inos, tx.files) + 4 && raw[at] == 255
      && raw[|raw| - 4..] == [255, 255, 255, 255]
  {
    var head, lists := Parts(names, inos, tx);
    MarksBytesSize(names, tx.dentries);
    FilesBytesSize(inos, tx.files);
    Ended(
      head + SelfBytes(tx.self), MarksBytes(names, tx.dentries), FilesBytes(inos, tx.files), lists,
      Record(names, inos, tx), 5 + SelfSize(tx.self) + MarksSize(names));
  }

  lemma Ended(pre: seq<byte>, marks: seq<byte>, files: seq<byte>, lists: seq<byte>, raw: seq<byte>, at: nat)
    requires lists == files + END && raw == pre + (marks + ([255] + lists)) && at == |pre| + |marks|
    ensures |raw| == at + 1 + |files| + 4 && raw[at] == 255 && raw[|raw| - 4..] == END
  {
  }

  /** File `k` of the order walked stands behind those before it; a deleted one takes no room. */
  lemma FileWritten(names: seq<Name>, inos: seq<Ino>, tx: Tx, k: nat)
    requires Orders(names, inos, tx) && k < |inos| && tx.files[inos[k]].Some?
    ensures InodeAt(
      Record(names, inos, tx), 6 + SelfSize(tx.self) + MarksSize(names) + FilesSize(inos[..k], tx.files),
      tx.files[inos[k]].value)
  {
    var head, lists := Parts(names, inos, tx);
    MarksBytesSize(names, tx.dentries);
    var pre := ((head + SelfBytes(tx.self)) + MarksBytes(names, tx.dentries)) + [255];
    Deeper(head + SelfBytes(tx.self), MarksBytes(names, tx.dentries), [255] + lists, Record(names, inos, tx));
    Deeper((head + SelfBytes(tx.self)) + MarksBytes(names, tx.dentries), [255], lists, Record(names, inos, tx));
    FileInList(
      Record(names, inos, tx), pre, inos, tx.files, k,
      6 + SelfSize(tx.self) + MarksSize(names) + FilesSize(inos[..k], tx.files));
  }

  lemma FileInList(raw: seq<byte>, pre: seq<byte>, inos: seq<Ino>, files: map<Ino, Option<Inode>>, k: nat, at: nat)
    requires (forall j :: 0 <= j < |inos| ==> inos[j] in files) && k < |inos| && files[inos[k]].Some?
    requires raw == pre + (FilesBytes(inos, files) + END) && at == |pre| + FilesSize(inos[..k], files)
    ensures InodeAt(raw, at, files[inos[k]].value)
  {
    var tail := FilesSplit(inos, files, k);
    var before, i := FilesBytes(inos[..k], files), files[inos[k]].value;
    FilesBytesSize(inos[..k], files);
    Buried(pre, before, InodeBytes(i), tail, END, raw);
    InodeFields(raw, at, i);
  }

  /** The directory's inode is the one field behind which deserialize gets lost; the inode itself is restored. */
  lemma SelfRestored(names: seq<Name>, inos: seq<Ino>, tx: Tx)
    requires Orders(names, inos, tx) && (tx.self.Some? ==> Plain(tx.self.value))
    ensures var end := ParseRecord(Record(names, inos, tx)); end.Restored? ==> end.self == tx.self
  {
    var raw := Record(names, inos, tx);
    SelfWritten(names, inos, tx);
    if tx.self.Some? {
      assert ToLe(INODE_CORE_SIZE, 4)[0] == 104;
      assert raw[5..9][0] != END[0];
    }
    SelfParsed(raw);
  }

  /** The inode of a restored record is the block that follows its size. */
  lemma SelfParsed(raw: seq<byte>)
    ensures ParseRecord(raw).Restored? ==>
      && |raw| >= 9
      && (raw[5..9] == END ==> ParseRecord(raw).self == None)
      && (raw[5..9] != END ==>
            |raw| >= 9 + SIZEOF_INODE && ParseRecord(raw).self == Some(InodeBlock(raw[9..9 + INODE_CORE_SIZE], [])))
  {
  }

  // ---- Parsing marks, for every byte string ----

  /** A mark as it may stand in a journal: any status byte but 255, which ends the list. */
  datatype RawMark = RawMark(status: byte, name: Name, ino: Ino)

  function RawBytes(m: RawMark): seq<byte> { [m.status] + (ToLe(|m.name|, 4) + (m.name + m.ino)) }

  function RawCat(ms: seq<RawMark>): seq<byte> {
    if ms == [] then [] else RawBytes(ms[0]) + RawCat(ms[1..])
  }

  /** Marks that can be told apart: names that occur once, and are not known yet. */
  predicate Readable(ms: seq<RawMark>, known: set<Name>) {
    ms == [] || (ms[0].status != 255 && |ms[0].name| < INT_LIMIT && ms[0].name !in known
                 && Readable(ms[1..], known + {ms[0].name}))
  }

  /** Any status but zero is an added name. */
  function Meant(ms: seq<RawMark>, acc: map<Name, Mark>): map<Name, Mark> {
    if ms == [] then acc else Meant(ms[1..], acc[ms[0].name := Mark(ms[0].status != 0, ms[0].ino)])
  }

  lemma HeadOfRaw(m: RawMark, rest: seq<byte>)
    requires m.status != 255 && |m.name| < INT_LIMIT
    ensures var s, size := RawBytes(m) + rest, 21 + |m.name|;
      HeadOf(s) == Entry(m.name, Mark(m.status != 0, m.ino), size) && size <= |s| && s[size..] == rest
  {
    assert INT_LIMIT < Pow256(4);
    LeRoundTrip(|m.name|, 4);
    Nested([m.status], ToLe(|m.name|, 4), m.name, m.ino, rest);
  }

  lemma {:induction false} MarksRead(ms: seq<RawMark>, acc: map<Name, Mark>, rest: seq<byte>)
    requires Readable(ms, acc.Keys)
    ensures ParseMarks(RawCat(ms) + ([255] + rest), acc) == Parsed(Meant(ms, acc), rest)
  {
    if ms == [] {
      EndsMarks(rest, acc);
      assert RawCat(ms) + ([255] + rest) == [255] + rest;
    } else {
      var m, acc' := ms[0], acc[ms[0].name := Mark(ms[0].status != 0, ms[0].ino)];
      Regroup(RawBytes(m), RawCat(ms[1..]), [255] + rest);
      HeadOfRaw(m, RawCat(ms[1..]) + ([255] + rest));
      assert acc'.Keys == acc.Keys + {m.name};
      MarksRead(ms[1..], acc', rest);
    }
  }

  /** The front of a list of marks, put together again. */
  lemma HeadWritten(s: seq<byte>) returns (m: RawMark)
    requires HeadOf(s).Entry?
    ensures m.status != 255 && |m.name| < INT_LIMIT && m.name == HeadOf(s).name
    ensures HeadOf(s).mark == Mark(m.status != 0, m.ino) && s == RawBytes(m) + s[HeadOf(s).size..]
  {
    var len := FromLe(s[1..5]);
    m := RawMark(s[0], s[5..5 + len], s[5 + len..21 + len]);
    BytesRoundTrip(s[1..5]);
    FourPieces(s, len);
    Regroup([m.status], ToLe(|m.name|, 4) + (m.name + m.ino), s[21 + len..]);
  }

  lemma FourPieces(s: seq<byte>, len: nat)
    requires 21 + len <= |s|
    ensures s == [s[0]] + ((s[1..5] + (s[5..5 + len] + s[5 + len..21 + len])) + s[21 + len..])
  {
  }

  lemma {:induction false} MarksWereWritten(s: seq<byte>, acc: map<Name, Mark>) returns (ms: seq<RawMark>)
    requires ParseMarks(s, acc).Parsed?
    ensures Readable(ms, acc.Keys)
    ensures s == RawCat(ms) + ([255] + ParseMarks(s, acc).rest)
    decreases |s|
  {
    match HeadOf(s) {
      case Ending =>
        ms := [];
        assert s == [s[0]] + s[1..];
      case Entry(name, mark, size) =>
        var m := HeadWritten(s);
        var acc' := acc[name := mark];
        assert acc'.Keys == acc.Keys + {name};
        var more := MarksWereWritten(s[size..], acc');
        ms := [m] + more;
        assert ms[1..] == more;
        Regroup(RawBytes(m), RawCat(more), [255] + ParseMarks(s, acc).rest);
    }
  }

  /**
    Reading marks is exact: it succeeds on a byte string if and only if this starts with marks of distinct names
    and the ending byte, and then gives their meaning and what follows.
   */
  lemma MarksParsedExactly(s: seq<byte>)
    ensures ParseMarks(s, map[]).Parsed? <==> exists ms, rest :: MarksThere(s, ms, rest)
    ensures forall ms, rest :: MarksThere(s, ms, rest) ==> ParseMarks(s, map[]) == Parsed(Meant(ms, map[]), rest)
  {
    var none: map<Name, Mark> := map[];
    assert none.Keys == {};
    forall ms, rest | MarksThere(s, ms, rest) ensures ParseMarks(s, map[]) == Parsed(Meant(ms, map[]), rest) {
      MarksRead(ms, none, rest);
    }
    if ParseMarks(s, map[]).Parsed? {
      var ms := MarksWereWritten(s, none);
      assert MarksThere(s, ms, ParseMarks(s, map[]).rest);
    }
  }

  ghost predicate MarksThere(s: seq<byte>, ms: seq<RawMark>, rest: seq<byte>) {
    Readable(ms, {}) && s == RawCat(ms) + ([255] + rest)
  }
}
