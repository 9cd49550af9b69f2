/** The byte form of a transaction in its journal (transaction::serialize and deserialize). */
module RecordCodec {
  import opened Types
  import opened Transactions
  import opened DentryCodec

  /** sizeof(inode) on x86-64, the distance deserialize skips over the directory's inode. */
  const SIZEOF_INODE := 192

  /** The 32-bit -1 that ends a list. */
  const END: seq<byte> := [255, 255, 255, 255]

  /** S_ISLNK of the stored mode. */
  predicate IsLink(core: seq<byte>)
    requires |core| >= 4
  {
    core[1] / 16 == 10
  }

  /** The file type is in the upper four of the sixteen mode bits. */
  lemma LinkMode(core: seq<byte>)
    requires |core| >= 4
    ensures IsLink(core) <==> FromLe(core[..4]) / 4096 % 16 == 10
  {
    var s := core[..4];
    assert FromLe(s) == s[0] + 256 * FromLe(s[1..]) && FromLe(s[1..]) == s[1] + 256 * FromLe(s[2..]);
    Nibble(s[0], s[1], FromLe(s[2..]));
  }

  lemma Nibble(a: byte, b: byte, n: nat)
    ensures (a + 256 * (b + 256 * n)) / 4096 % 16 == b / 16
  {
    assert (a + 256 * (b + 256 * n)) / 4096 == b / 16 + 16 * n;
  }

  /** A file or directory inode: no link target. */
  predicate Plain(i: Inode) { !IsLink(i.core) && i.link == [] }

  /** Length, then inode::serialize. */
  function InodeBytes(i: Inode): seq<byte> {
    ToLe(|i.core| + |i.link|, 4) + (i.core + i.link)
  }

  function SelfBytes(self: Option<Inode>): seq<byte> {
    if self.Some? then InodeBytes(self.value) else END
  }

  function MarkBytes(n: Name, m: Mark): seq<byte> {
    [if m.alive then 1 else 0] + (ToLe(|n|, 4) + (n + m.ino))
  }

  function MarksBytes(order: seq<Name>, marks: map<Name, Mark>): seq<byte>
    requires forall k :: 0 <= k < |order| ==> order[k] in marks
  {
    if order == [] then []
    else MarksBytes(order[..|order| - 1], marks) + MarkBytes(order[|order| - 1], marks[order[|order| - 1]])
  }

  function FileBytes(f: Option<Inode>): seq<byte> {
    if f.Some? then InodeBytes(f.value) else []
  }

  function FilesBytes(order: seq<Ino>, files: map<Ino, Option<Inode>>): seq<byte>
    requires forall k :: 0 <= k < |order| ==> order[k] in files
  {
    if order == [] then []
    else FilesBytes(order[..|order| - 1], files) + FileBytes(files[order[|order| - 1]])
  }

  /** The marks and the live file inodes. */
  function Lists(names: seq<Name>, inos: seq<Ino>, tx: Tx): seq<byte>
    requires forall k :: 0 <= k < |names| ==> names[k] in tx.dentries
    requires forall k :: 0 <= k < |inos| ==> inos[k] in tx.files
  {
    MarksBytes(names, tx.dentries) + ([255] + (FilesBytes(inos, tx.files) + END))
  }

  /** What follows the size: the valid byte, the directory's inode, the lists. */
  function Body(names: seq<Name>, inos: seq<Ino>, tx: Tx): seq<byte>
    requires forall k :: 0 <= k < |names| ==> names[k] in tx.dentries
    requires forall k :: 0 <= k < |inos| ==> inos[k] in tx.files
  {
    [1] + (SelfBytes(tx.self) + Lists(names, inos, tx))
  }

  /** serialize, with the maps walked in the orders `names` and `inos`. */
  function Record(names: seq<Name>, inos: seq<Ino>, tx: Tx): seq<byte>
    requires forall k :: 0 <= k < |names| ==> names[k] in tx.dentries
    requires forall k :: 0 <= k < |inos| ==> inos[k] in tx.files
  {
    ToLe(4 + |Body(names, inos, tx)|, 4) + Body(names, inos, tx)
  }

  /** Orders in which the maps of a transaction may be walked. */
  ghost predicate Orders(names: seq<Name>, inos: seq<Ino>, tx: Tx) {
    Enumerates(names, tx.dentries.Keys) && Enumerates(inos, tx.files.Keys)
  }

  /** `raw` is the record of `tx`, for some order of each map. */
  ghost predicate IsRecord(raw: seq<byte>, tx: Tx) {
    exists names, inos :: Orders(names, inos, tx) && raw == Record(names, inos, tx)
  }

  /** Pushed one after the other, the parts make up the record. */
  lemma Pushed(head: seq<byte>, self: seq<byte>, marks: seq<byte>, files: seq<byte>)
    ensures head + [1] + self + marks + [255] + files + END == head + ([1] + (self + (marks + ([255] + (files + END)))))
  {
    assert marks + [255] + files + END == marks + ([255] + (files + END));
    assert [1] + self + marks + [255] + files + END == [1] + (self + (marks + [255] + files + END));
    assert head + [1] + self + marks + [255] + files + END == head + ([1] + self + marks + [255] + files + END);
  }

  /** Behind its size, the parts make up a record. */
  lemma PartsAreRecord(
      tail: seq<byte>, n: nat, self: seq<byte>, marks: seq<byte>, files: seq<byte>, names: seq<Name>, inos: seq<Ino>,
      tx: Tx)
    requires Orders(names, inos, tx) && self == SelfBytes(tx.self)
    requires marks == MarksBytes(names, tx.dentries) && files == FilesBytes(inos, tx.files)
    requires tail == [1] + (self + (marks + ([255] + (files + END)))) && n == 4 + |tail|
    ensures IsRecord(ToLe(n, 4) + tail, tx)
  {
    var lists := Lists(names, inos, tx);
    assert lists == marks + ([255] + (files + END));
    assert Body(names, inos, tx) == [1] + (self + lists);
    BodyIsRecord(tail, n, names, inos, tx);
  }

  lemma BodyIsRecord(tail: seq<byte>, n: nat, names: seq<Name>, inos: seq<Ino>, tx: Tx)
    requires Orders(names, inos, tx) && tail == Body(names, inos, tx) && n == 4 + |tail|
    ensures IsRecord(ToLe(n, 4) + tail, tx)
  {
    assert Record(names, inos, tx) == ToLe(n, 4) + tail;
  }

  lemma PushedTail(head: seq<byte>, self: seq<byte>, marks: seq<byte>, files: seq<byte>, vec: seq<byte>)
    requires |head| == 4 && vec == head + [1] + self + marks + [255] + files + END
    ensures var body := [1] + (self + (marks + ([255] + (files + END)))); |vec| == 4 + |body| && vec[4..] == body
  {
    Pushed(head, self, marks, files);
    SizeOver(head, [1] + (self + (marks + ([255] + (files + END)))), vec);
  }

  lemma SizeOver(head: seq<byte>, body: seq<byte>, vec: seq<byte>)
    requires |head| == 4 && vec == head + body
    ensures |vec| == 4 + |body| && vec[4..] == body
  {
  }

  /** A record starts with its size, as long as the size fits its field. */
  lemma RecordSized(names: seq<Name>, inos: seq<Ino>, tx: Tx)
    requires forall k :: 0 <= k < |names| ==> names[k] in tx.dentries
    requires forall k :: 0 <= k < |inos| ==> inos[k] in tx.files
    requires |Record(names, inos, tx)| < INT_LIMIT
    ensures |Record(names, inos, tx)| >= 5 && FromLe(Record(names, inos, tx)[..4]) == |Record(names, inos, tx)|
  {
    assert INT_LIMIT < Pow256(4);
    LeRoundTrip(|Record(names, inos, tx)|, 4);
    assert Record(names, inos, tx)[..4] == ToLe(4 + |Body(names, inos, tx)|, 4);
  }

  // ---- Reading a record back ----

  /** A parsed list and the bytes after it, or how parsing failed: duplicate key, read past the end, symlink. */
  datatype Parsed<T> = Parsed(value: T, rest: seq<byte>) | Duplicate | Overrun | FromStore

  /** What stands at the front of a list of marks: an entry and its size, the ending byte, or too few bytes. */
  datatype Head = Entry(name: Name, mark: Mark, size: nat) | Ending | Short

  function HeadOf(s: seq<byte>): (h: Head)
    ensures h.Entry? ==> h.size == 21 + |h.name| <= |s|
    ensures h.Ending? ==> s != []
  {
    if s == [] then Short
    else if s[0] == 255 then Ending
    else if |s| < 5 then Short
    else
      var len := FromLe(s[1..5]);
      var at := 5 + len;
      if len >= INT_LIMIT || |s| < at + 16 then Short else Entry(s[5..at], Mark(s[0] != 0, s[at..at + 16]), at + 16)
  }

  function ParseMarks(s: seq<byte>, acc: map<Name, Mark>): Parsed<map<Name, Mark>>
    decreases |s|
  {
    match HeadOf(s)
    case Short => Overrun
    case Ending => Parsed(acc, s[1..])
    case Entry(name, mark, size) => if name in acc then Duplicate else ParseMarks(s[size..], acc[name := mark])
  }

  /** What stands at the front of the list of file inodes. */
  datatype FileHead = File(inode: Inode, size: nat) | NoMore | Few

  function FileHeadOf(s: seq<byte>): (h: FileHead)
    ensures h.File? ==> 4 <= h.size <= |s| && 4 + INODE_CORE_SIZE <= |s|
    ensures h.NoMore? ==> 4 <= |s|
  {
    if |s| < 4 then Few
    else if s[..4] == END then NoMore
    else
      var size := 4 + FromLe(s[..4]);
      if size - 4 >= INT_LIMIT || |s| < size || |s| < 4 + INODE_CORE_SIZE then Few
      else File(InodeBlock(s[4..4 + INODE_CORE_SIZE], []), size)
  }

  function ParseFiles(s: seq<byte>, acc: map<Ino, Option<Inode>>): Parsed<map<Ino, Option<Inode>>>
    decreases |s|
  {
    match FileHeadOf(s)
    case Few => Overrun
    case NoMore => Parsed(acc, s[4..])
    case File(i, size) =>
      if IsLink(i.core) then FromStore
      else if InoOf(i) in acc then Duplicate
      else ParseFiles(s[size..], acc[InoOf(i) := Some(i)])
  }

  /** One entry of the marks, read from `index` of the whole record. */
  lemma MarksFrom(raw: seq<byte>, index: nat, acc: map<Name, Mark>, h: Head)
    requires index <= |raw| && h == HeadOf(raw[index..])
    ensures h.Short? ==> ParseMarks(raw[index..], acc) == Overrun
    ensures h.Ending? ==> index < |raw| && ParseMarks(raw[index..], acc) == Parsed(acc, raw[index + 1..])
    ensures h.Entry? ==> index + h.size <= |raw|
    ensures h.Entry? && h.name in acc ==> ParseMarks(raw[index..], acc) == Duplicate
    ensures h.Entry? && h.name !in acc ==>
      ParseMarks(raw[index..], acc) == ParseMarks(raw[index + h.size..], acc[h.name := h.mark])
  {
    if h.Ending? { SliceFrom(raw, index, 1); }
    if h.Entry? { SliceFrom(raw, index, h.size); }
  }

  /** One file inode, read from `index` of the whole record. */
  lemma FilesFrom(raw: seq<byte>, index: nat, acc: map<Ino, Option<Inode>>, h: FileHead)
    requires index <= |raw| && h == FileHeadOf(raw[index..])
    ensures h.Few? ==> ParseFiles(raw[index..], acc) == Overrun
    ensures h.NoMore? ==> index + 4 <= |raw| && ParseFiles(raw[index..], acc) == Parsed(acc, raw[index + 4..])
    ensures h.File? ==> index + h.size <= |raw|
    ensures h.File? && IsLink(h.inode.core) ==> ParseFiles(raw[index..], acc) == FromStore
    ensures h.File? && !IsLink(h.inode.core) && InoOf(h.inode) in acc ==> ParseFiles(raw[index..], acc) == Duplicate
    ensures h.File? && !IsLink(h.inode.core) && InoOf(h.inode) !in acc ==>
      ParseFiles(raw[index..], acc) ==
      ParseFiles(raw[index + h.size..], acc[InoOf(h.inode) := Some(h.inode)])
  {
    if h.NoMore? { SliceFrom(raw, index, 4); }
    if h.File? { SliceFrom(raw, index, h.size); }
  }

  /** How deserialize ends: restored, -1 for a record that is not valid, or one of the failures above. */
  datatype RecordEnd =
    | Restored(self: Option<Inode>, dentries: map<Name, Mark>, files: map<Ino, Option<Inode>>)
    | NotValid | DuplicateKey | OutOfBounds | LinkInStore

  function Failure<T>(p: Parsed<T>): RecordEnd
    requires !p.Parsed?
  {
    match p case Duplicate => DuplicateKey case Overrun => OutOfBounds case FromStore => LinkInStore
  }

  function ParseLists(s: seq<byte>, self: Option<Inode>): RecordEnd {
    var marks := ParseMarks(s, map[]);
    if !marks.Parsed? then Failure(marks)
    else
      var files := ParseFiles(marks.rest, map[]);
      if !files.Parsed? then Failure(files) else Restored(self, marks.value, files.value)
  }

  function ParseRecord(raw: seq<byte>): RecordEnd {
    if |raw| < 5 then OutOfBounds
    else if raw[4] == 0 then NotValid
    else if |raw| < 9 then OutOfBounds
    else if raw[5..9] == END then ParseLists(raw[9..], None)
    else if |raw| < 9 + SIZEOF_INODE then OutOfBounds
    else
      var i := InodeBlock(raw[9..9 + INODE_CORE_SIZE], []);
      if IsLink(i.core) then LinkInStore else ParseLists(raw[9 + SIZEOF_INODE..], Some(i))
  }

  // ---- Round trip ----

  function MarksOf(order: seq<Name>, marks: map<Name, Mark>): map<Name, Mark> {
    map n | n in marks && n in order :: marks[n]
  }

  /** The file inodes a record keeps: deleted ones are not written. */
  function Live(files: map<Ino, Option<Inode>>): map<Ino, Option<Inode>> {
    map i | i in files && files[i].Some? :: files[i]
  }

  function LiveOf(order: seq<Ino>, files: map<Ino, Option<Inode>>): map<Ino, Option<Inode>> {
    map i | i in files && i in order && files[i].Some? :: files[i]
  }

  lemma ParsesMark(n: Name, m: Mark, rest: seq<byte>, acc: map<Name, Mark>)
    requires |n| < INT_LIMIT && n !in acc
    ensures ParseMarks(MarkBytes(n, m) + rest, acc) == ParseMarks(rest, acc[n := m])
  {
    var s := MarkBytes(n, m) + rest;
    HeadOfMark(n, m, rest);
    assert HeadOf(s) == Entry(n, m, 21 + |n|) && s[21 + |n|..] == rest;
  }

  /** The front of a list that starts with mark `m` of `n`. */
  lemma HeadOfMark(n: Name, m: Mark, rest: seq<byte>)
    requires |n| < INT_LIMIT
    ensures var s := MarkBytes(n, m) + rest; HeadOf(s) == Entry(n, m, 21 + |n|) && s[21 + |n|..] == rest
  {
    var s := MarkBytes(n, m) + rest;
    var head: seq<byte> := [if m.alive then 1 else 0];
    assert INT_LIMIT < Pow256(4);
    LeRoundTrip(|n|, 4);
    Nested(head, ToLe(|n|, 4), n, m.ino, rest);
    assert s == head + (ToLe(|n|, 4) + (n + (m.ino + rest)));
  }

  /** Taking apart what was put together. */
  lemma Nested(h: seq<byte>, l: seq<byte>, n: seq<byte>, i: seq<byte>, rest: seq<byte>)
    requires |h| == 1 && |l| == 4 && |i| == 16
    ensures var s, at := h + (l + (n + (i + rest))), 5 + |n|;
      && s == (h + (l + (n + i))) + rest && s[0] == h[0] && s[1..5] == l
      && s[5..at] == n && s[at..at + 16] == i && s[at + 16..] == rest
  {
    var s, at := h + (l + (n + (i + rest))), 5 + |n|;
    assert s[1..] == l + (n + (i + rest));
    assert s[5..] == n + (i + rest);
    SliceFrom(s, 5, |n|);
    assert s[at..] == i + rest;
    SliceFrom(s, at, 16);
  }

  /** Marks written in any order are read back up to the ending byte. */
  lemma {:induction false} ParsesMarks(order: seq<Name>, marks: map<Name, Mark>, rest: seq<byte>)
    requires forall k :: 0 <= k < |order| ==> order[k] in marks && |order[k]| < INT_LIMIT
    requires forall j, k :: 0 <= j < k < |order| ==> order[j] != order[k]
    ensures ParseMarks(MarksBytes(order, marks) + rest, map[]) == ParseMarks(rest, MarksOf(order, marks))
  {
    if order == [] {
      assert MarksBytes(order, marks) + rest == rest;
      assert MarksOf(order, marks) == map[];
    } else {
      var init, n := order[..|order| - 1], order[|order| - 1];
      ParsesMarks(init, marks, MarkBytes(n, marks[n]) + rest);
      Regroup(MarksBytes(init, marks), MarkBytes(n, marks[n]), rest);
      MarksOfNext(order, marks);
      ParsesMark(n, marks[n], rest, MarksOf(init, marks));
    }
  }

  lemma MarksOfNext(order: seq<Name>, marks: map<Name, Mark>)
    requires order != [] && order[|order| - 1] in marks
    requires forall j, k :: 0 <= j < k < |order| ==> order[j] != order[k]
    ensures var init, n := order[..|order| - 1], order[|order| - 1];
      n !in MarksOf(init, marks) && MarksOf(init, marks)[n := marks[n]] == MarksOf(order, marks)
  {
    assert order == order[..|order| - 1] + [order[|order| - 1]];
  }

  /** A file inode, if there is one, is plain and kept under its own number. */
  predicate OwnPlain(f: Option<Inode>, i: Ino) { f.Some? ==> InoOf(f.value) == i && Plain(f.value) }

  lemma ParsesFile(i: Inode, rest: seq<byte>, acc: map<Ino, Option<Inode>>)
    requires Plain(i) && InoOf(i) !in acc
    ensures ParseFiles(InodeBytes(i) + rest, acc) == ParseFiles(rest, acc[InoOf(i) := Some(i)])
  {
    var s := InodeBytes(i) + rest;
    assert s[..4] == ToLe(INODE_CORE_SIZE, 4) == [104, 0, 0, 0];
    LeRoundTrip(INODE_CORE_SIZE, 4);
    assert s[4..4 + INODE_CORE_SIZE] == i.core;
    assert s[4 + INODE_CORE_SIZE..] == rest;
    assert FileHeadOf(s) == File(i, 4 + INODE_CORE_SIZE);
  }

  lemma {:induction false} ParsesFiles(order: seq<Ino>, files: map<Ino, Option<Inode>>, rest: seq<byte>)
    requires forall k :: 0 <= k < |order| ==> order[k] in files
    requires forall i :: i in files ==> OwnPlain(files[i], i)
    requires forall j, k :: 0 <= j < k < |order| ==> order[j] != order[k]
    ensures ParseFiles(FilesBytes(order, files) + rest, map[]) == ParseFiles(rest, LiveOf(order, files))
  {
    if order == [] {
      assert FilesBytes(order, files) + rest == rest;
      assert LiveOf(order, files) == map[];
    } else {
      var init, i := order[..|order| - 1], order[|order| - 1];
      ParsesFiles(init, files, FileBytes(files[i]) + rest);
      Regroup(FilesBytes(init, files), FileBytes(files[i]), rest);
      LiveOfNext(order, files);
      ParsesOne(files[i], i, rest, LiveOf(init, files));
    }
  }

  lemma ParsesOne(f: Option<Inode>, i: Ino, rest: seq<byte>, acc: map<Ino, Option<Inode>>)
    requires OwnPlain(f, i) && i !in acc
    ensures ParseFiles(FileBytes(f) + rest, acc) == ParseFiles(rest, if f.Some? then acc[i := f] else acc)
  {
    if f.Some? {
      ParsesFile(f.value, rest, acc);
    } else {
      assert FileBytes(f) + rest == rest;
    }
  }

  lemma LiveOfNext(order: seq<Ino>, files: map<Ino, Option<Inode>>)
    requires order != [] && order[|order| - 1] in files
    requires forall j, k :: 0 <= j < k < |order| ==> order[j] != order[k]
    ensures var init, i := order[..|order| - 1], order[|order| - 1];
      && i !in LiveOf(init, files)
      && LiveOf(order, files) == if files[i].Some? then LiveOf(init, files)[i := files[i]] else LiveOf(init, files)
  {
    assert order == order[..|order| - 1] + [order[|order| - 1]];
  }

  /** The lists at the end of a record. */
  lemma ParsesLists(names: seq<Name>, inos: seq<Ino>, tx: Tx, self: Option<Inode>)
    requires Enumerates(names, tx.dentries.Keys) && Enumerates(inos, tx.files.Keys)
    requires forall n :: n in tx.dentries ==> |n| < INT_LIMIT
    requires forall i :: i in tx.files ==> OwnPlain(tx.files[i], i)
    ensures ParseLists(Lists(names, inos, tx), self) == Restored(self, tx.dentries, Live(tx.files))
  {
    var files := FilesBytes(inos, tx.files) + END;
    ParsesMarks(names, tx.dentries, [255] + files);
    EndsMarks(files, MarksOf(names, tx.dentries));
    assert MarksOf(names, tx.dentries) == tx.dentries by { AllMarks(names, tx.dentries); }
    ParsesFiles(inos, tx.files, END);
    EndsFiles(LiveOf(inos, tx.files));
    assert LiveOf(inos, tx.files) == Live(tx.files) by { AllLive(inos, tx.files); }
  }

  lemma EndsMarks(rest: seq<byte>, acc: map<Name, Mark>)
    ensures ParseMarks([255] + rest, acc) == Parsed(acc, rest)
  {
    assert ([255] + rest)[1..] == rest;
  }

  lemma EndsFiles(acc: map<Ino, Option<Inode>>)
    ensures ParseFiles(END, acc) == Parsed(acc, [])
  {
    assert END[..4] == END && END[4..] == [];
  }

  lemma AllMarks(names: seq<Name>, marks: map<Name, Mark>)
    requires Enumerates(names, marks.Keys)
    ensures MarksOf(names, marks) == marks
  {
  }

  lemma AllLive(inos: seq<Ino>, files: map<Ino, Option<Inode>>)
    requires Enumerates(inos, files.Keys)
    ensures LiveOf(inos, files) == Live(files)
  {
  }

  /**
    The record round trip: without the directory's own inode, deserialize restores the marks exactly and
    the file inodes that are not deleted, and meets neither a duplicate key nor the end of the buffer.
   */
  lemma RecordRoundTrip(names: seq<Name>, inos: seq<Ino>, tx: Tx)
    requires Enumerates(names, tx.dentries.Keys) && Enumerates(inos, tx.files.Keys) && tx.self == None
    requires forall n :: n in tx.dentries ==> |n| < INT_LIMIT
    requires forall i :: i in tx.files ==> OwnPlain(tx.files[i], i)
    ensures var end := ParseRecord(Record(names, inos, tx));
      && end.Restored? && end.self == None && end.dentries == tx.dentries
      && (forall i :: i in end.files <==> i in tx.files && tx.files[i].Some?)
      && (forall i :: i in end.files ==> end.files[i] == tx.files[i])
  {
    RestoresLive(names, inos, tx);
  }

  lemma RestoresLive(names: seq<Name>, inos: seq<Ino>, tx: Tx)
    requires Enumerates(names, tx.dentries.Keys) && Enumerates(inos, tx.files.Keys) && tx.self == None
    requires forall n :: n in tx.dentries ==> |n| < INT_LIMIT
    requires forall i :: i in tx.files ==> OwnPlain(tx.files[i], i)
    ensures ParseRecord(Record(names, inos, tx)) == Restored(None, tx.dentries, Live(tx.files))
  {
    SelflessRecord(names, inos, tx);
    ParsesSelfless(ToLe(4 + |Body(names, inos, tx)|, 4), Lists(names, inos, tx));
    ParsesLists(names, inos, tx, None);
  }

  lemma SelflessRecord(names: seq<Name>, inos: seq<Ino>, tx: Tx)
    requires forall k :: 0 <= k < |names| ==> names[k] in tx.dentries
    requires forall k :: 0 <= k < |inos| ==> inos[k] in tx.files
    requires tx.self == None
    ensures Record(names, inos, tx) == ToLe(4 + |Body(names, inos, tx)|, 4) + ([1] + (END + Lists(names, inos, tx)))
  {
  }

  lemma ParsesSelfless(head: seq<byte>, lists: seq<byte>)
    requires |head| == 4
    ensures ParseRecord(head + ([1] + (END + lists))) == ParseLists(lists, None)
  {
    var raw := head + ([1] + (END + lists));
    assert raw[4] == 1 && raw[5..9] == END && raw[9..] == lists;
  }

  // ---- Records with the directory's own inode ----

  function MarksSize(order: seq<Name>): nat { 21 * |order| + NameBytes(order) }

  lemma {:induction false} MarksBytesSize(order: seq<Name>, marks: map<Name, Mark>)
    requires forall k :: 0 <= k < |order| ==> order[k] in marks
    ensures |MarksBytes(order, marks)| == MarksSize(order)
  {
    if order != [] { MarksBytesSize(order[..|order| - 1], marks); }
  }

  lemma {:induction false} DropName(order: seq<Name>, k: nat)
    requires k < |order|
    ensures NameBytes(order) == NameBytes(order[..k] + order[k + 1..]) + |order[k]|
    decreases |order|
  {
    var init, without := order[..|order| - 1], order[..k] + order[k + 1..];
    if k < |order| - 1 {
      DropName(init, k);
      assert without[..|without| - 1] == init[..k] + init[k + 1..];
      assert without[|without| - 1] == order[|order| - 1];
    } else {
      assert without == init;
    }
  }

  /** Every walk over the same names takes the same room. */
  lemma {:induction false} SameRoom(a: seq<Name>, b: seq<Name>, keys: set<Name>)
    requires Enumerates(a, keys) && Enumerates(b, keys)
    ensures |a| == |b| && NameBytes(a) == NameBytes(b)
    decreases |a|
  {
    if a == [] {
      assert b == [];
    } else {
      var n := a[|a| - 1];
      assert n in b;
      var k :| 0 <= k < |b| && b[k] == n;
      DropName(b, k);
      var a', b' := a[..|a| - 1], b[..k] + b[k + 1..];
      WithoutOne(a, |a| - 1, keys);
      WithoutOne(b, k, keys);
      assert a[..|a| - 1] + a[|a| - 1 + 1..] == a';
      SameRoom(a', b', keys - {n});
      assert |b'| == |b| - 1;
    }
  }

  lemma WithoutOne(order: seq<Name>, k: nat, keys: set<Name>)
    requires Enumerates(order, keys) && k < |order|
    ensures Enumerates(order[..k] + order[k + 1..], keys - {order[k]})
  {
    var rest := order[..k] + order[k + 1..];
    forall n | n in keys - {order[k]} ensures n in rest {
      var j :| 0 <= j < |order| && order[j] == n;
      assert rest[if j < k then j else j - 1] == n;
    }
  }

  /** Parsing marks consumes exactly the room of the names it adds, and the ending byte. */
  lemma {:induction false} MarksConsume(s: seq<byte>, acc: map<Name, Mark>, order: seq<Name>)
      returns (order': seq<Name>)
    requires Enumerates(order, acc.Keys) && ParseMarks(s, acc).Parsed?
    ensures Enumerates(order', ParseMarks(s, acc).value.Keys)
    ensures |s| + MarksSize(order) == MarksSize(order') + 1 + |ParseMarks(s, acc).rest|
    decreases |s|
  {
    match HeadOf(s) {
      case Ending =>
        order' := order;
      case Entry(name, mark, size) =>
        var longer := order + [name];
        assert longer[..|longer| - 1] == order;
        assert name !in order;
        assert Enumerates(longer, acc[name := mark].Keys);
        order' := MarksConsume(s[size..], acc[name := mark], longer);
    }
  }

  lemma {:induction false} NoFilesNoBytes(order: seq<Ino>, files: map<Ino, Option<Inode>>)
    requires (forall k :: 0 <= k < |order| ==> order[k] in files) && forall i :: i in files ==> files[i].None?
    ensures FilesBytes(order, files) == []
  {
    if order != [] { NoFilesNoBytes(order[..|order| - 1], files); }
  }

  /**
    With the directory's own inode the skip is wrong: of a record without live file inodes, deserialize
    restores the marks exactly when the directory's inode is absent.
   */
  lemma MarksRestoredIffSelfAbsent(names: seq<Name>, inos: seq<Ino>, tx: Tx)
    requires Enumerates(names, tx.dentries.Keys) && Enumerates(inos, tx.files.Keys)
    requires (tx.self.Some? ==> Plain(tx.self.value)) && forall i :: i in tx.files ==> tx.files[i].None?
    requires forall n :: n in tx.dentries ==> |n| < INT_LIMIT
    ensures var end := ParseRecord(Record(names, inos, tx));
      (end.Restored? && end.dentries == tx.dentries) <==> tx.self == None
  {
    if tx.self == None {
      RecordRoundTrip(names, inos, tx);
    } else {
      SelfHidesMarks(names, inos, tx);
    }
  }

  lemma SelfHidesMarks(names: seq<Name>, inos: seq<Ino>, tx: Tx)
    requires Enumerates(names, tx.dentries.Keys) && Enumerates(inos, tx.files.Keys)
    requires tx.self.Some? && Plain(tx.self.value) && forall i :: i in tx.files ==> tx.files[i].None?
    ensures var end := ParseRecord(Record(names, inos, tx)); end.Restored? ==> end.dentries != tx.dentries
  {
    var raw, lists := Record(names, inos, tx), Lists(names, inos, tx);
    NoFilesNoBytes(inos, tx.files);
    MarksBytesSize(names, tx.dentries);
    assert |lists| == MarksSize(names) + 5;
    RestIsShort(raw, ToLe(4 + |Body(names, inos, tx)|, 4), tx.self.value, lists);
    if ParseRecord(raw).Restored? && ParseRecord(raw).dentries == tx.dentries {
      TooShort(raw[9 + SIZEOF_INODE..], names, tx.dentries, ParseRecord(raw).self);
    }
  }

  /** Fewer bytes than the marks take do not hold them. */
  lemma TooShort(rest: seq<byte>, names: seq<Name>, marks: map<Name, Mark>, self: Option<Inode>)
    requires Enumerates(names, marks.Keys) && |rest| < MarksSize(names)
    ensures ParseLists(rest, self).Restored? ==> ParseLists(rest, self).dentries != marks
  {
    var parsed := ParseMarks(rest, map[]);
    if parsed.Parsed? && parsed.value == marks {
      var order := MarksConsume(rest, map[], []);
      SameRoom(names, order, marks.Keys);
    }
  }

  /** Past the directory's inode the skip leaves 88 bytes too few. */
  lemma RestIsShort(raw: seq<byte>, head: seq<byte>, i: Inode, lists: seq<byte>)
    requires |head| == 4 && Plain(i) && raw == head + ([1] + (InodeBytes(i) + lists))
    ensures ParseRecord(raw).Restored? ==>
      && |raw| >= 9 + SIZEOF_INODE && |raw[9 + SIZEOF_INODE..]| + 88 == |lists|
      && ParseRecord(raw) == ParseLists(raw[9 + SIZEOF_INODE..], ParseRecord(raw).self)
  {
    assert raw[5..] == InodeBytes(i) + lists;
    assert raw[5..9] == ToLe(INODE_CORE_SIZE, 4);
    assert raw[5] == 104;
  }
}
