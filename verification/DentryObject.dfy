/** The byte form of a child list (client/meta/dentry.cpp). */
module DentryCodec {
  import opened Types
  import opened Striping

  /** Lengths are read as a signed 32-bit int: from here on they would be negative. */
  const INT_LIMIT := 0x8000_0000

  /** An iteration order of a hash map: every key once. */
  ghost predicate Enumerates<K>(order: seq<K>, keys: set<K>) {
    && (forall k :: 0 <= k < |order| ==> order[k] in keys)
    && (forall n :: n in keys ==> n in order)
    && (forall j, k :: 0 <= j < k < |order| ==> order[j] != order[k])
  }

  /** Name length as an int, the name, the inode number. */
  function EntryBytes(n: Name, i: Ino): seq<byte> {
    ToLe(|n|, 4) + n + i
  }

  function Entries(order: seq<Name>, c: Children): seq<byte>
    requires forall k :: 0 <= k < |order| ==> order[k] in c
  {
    if order == [] then []
    else Entries(order[..|order| - 1], c) + EntryBytes(order[|order| - 1], c[order[|order| - 1]])
  }

  /** The number of children as a size_t, then the entries. */
  function Encode(order: seq<Name>, c: Children): seq<byte>
    requires forall k :: 0 <= k < |order| ==> order[k] in c
  {
    ToLe(|order|, 8) + Entries(order, c)
  }

  /** get_total_name_length. */
  function NameBytes(order: seq<Name>): nat {
    if order == [] then 0 else NameBytes(order[..|order| - 1]) + |order[|order| - 1]|
  }

  /** The size that serialize and sync compute. */
  function RawSize(order: seq<Name>): nat {
    8 + |order| * 4 + NameBytes(order) + |order| * 16
  }

  lemma {:induction false} EntriesLength(order: seq<Name>, c: Children)
    requires forall k :: 0 <= k < |order| ==> order[k] in c
    ensures |Entries(order, c)| == |order| * 4 + NameBytes(order) + |order| * 16
  {
    if order != [] { EntriesLength(order[..|order| - 1], c); }
  }

  /** The encoding fills exactly the computed size. */
  lemma EncodeLength(order: seq<Name>, c: Children)
    requires forall k :: 0 <= k < |order| ==> order[k] in c
    ensures |Encode(order, c)| == RawSize(order)
  {
    EntriesLength(order, c);
  }

  /** A char buffer read as a C string: all up to the first NUL. */
  function CString(s: seq<byte>): (r: seq<byte>)
    ensures |r| <= |s| && r == s[..|r|] && (|r| < |s| ==> s[|r|] == 0)
    ensures forall i :: 0 <= i < |r| ==> r[i] != 0
  {
    if s == [] || s[0] == 0 then [] else [s[0]] + CString(s[1..])
  }

  predicate NulFree(s: seq<byte>) { forall i :: 0 <= i < |s| ==> s[i] != 0 }

  lemma {:induction false} CStringWhole(s: seq<byte>)
    requires NulFree(s)
    ensures CString(s) == s
  {
    if s != [] { CStringWhole(s[1..]); }
  }

  datatype Cursor = Cursor(list: Children, at: nat)

  /** One turn of the loop of deserialize; None where the code would read past its buffer. */
  function DecodeEntry(raw: seq<byte>, cur: Cursor): Option<Cursor> {
    if cur.at + 4 > |raw| then None
    else
      var len := FromLe(raw[cur.at..cur.at + 4]);
      if len >= INT_LIMIT || cur.at + 4 + len + 16 > |raw| then None
      else
        var name := CString(raw[cur.at + 4..cur.at + 4 + len]);
        var ino := raw[cur.at + 4 + len..cur.at + 4 + len + 16];
        Some(Cursor(if name in cur.list then cur.list else cur.list[name := ino], cur.at + 4 + len + 16))
  }

  function DecodeUpTo(raw: seq<byte>, count: nat): Option<Cursor> {
    if count == 0 then Some(Cursor(map[], 8))
    else match DecodeUpTo(raw, count - 1)
      case None => None
      case Some(cur) => DecodeEntry(raw, cur)
  }

  lemma DecodeMore(raw: seq<byte>, k: nat, cur: Cursor)
    requires DecodeUpTo(raw, k) == Some(cur)
    ensures DecodeUpTo(raw, k + 1) == DecodeEntry(raw, cur)
  {
  }

  function Decode(raw: seq<byte>): Option<Children> {
    if |raw| < 8 then None
    else match DecodeUpTo(raw, FromLe(raw[..8]))
      case None => None
      case Some(cur) => Some(cur.list)
  }

  lemma {:induction false} EntriesPrefix(order: seq<Name>, c: Children, k: nat)
    requires (forall j :: 0 <= j < |order| ==> order[j] in c) && k <= |order|
    ensures |Entries(order[..k], c)| <= |Entries(order, c)|
    ensures Entries(order, c)[..|Entries(order[..k], c)|] == Entries(order[..k], c)
    decreases |order|
  {
    if k < |order| {
      var init := order[..|order| - 1];
      EntriesPrefix(init, c, k);
      assert init[..k] == order[..k];
      assert Entries(order, c)[..|Entries(init, c)|] == Entries(init, c);
    } else {
      assert order[..k] == order;
    }
  }

  /** The buffer after `k` turns of the loop of serialize. */
  function EncodedUpTo(order: seq<Name>, c: Children, k: nat): seq<byte>
    requires k <= |order| && forall j :: 0 <= j < |order| ==> order[j] in c
  {
    ToLe(|order|, 8) + Entries(order[..k], c)
  }

  lemma EncodedNext(order: seq<Name>, c: Children, k: nat)
    requires (forall j :: 0 <= j < |order| ==> order[j] in c) && k < |order|
    ensures EncodedUpTo(order, c, k + 1) == EncodedUpTo(order, c, k) + EntryBytes(order[k], c[order[k]])
    ensures |EncodedUpTo(order, c, k + 1)| <= RawSize(order)
  {
    assert order[..k + 1][..k] == order[..k];
    EntriesPrefix(order, c, k + 1);
    EncodeLength(order, c);
  }

  lemma EncodedEnds(order: seq<Name>, c: Children)
    requires forall j :: 0 <= j < |order| ==> order[j] in c
    ensures EncodedUpTo(order, c, 0) == ToLe(|order|, 8)
    ensures EncodedUpTo(order, c, |order|) == Encode(order, c) && |Encode(order, c)| == RawSize(order)
  {
    assert order[..|order|] == order;
    EncodeLength(order, c);
  }

  // ---- Decoding, for every buffer ----

  /** The entries of a buffer as they stand there: names that repeat, or hold a NUL, included. */
  function Cat(es: seq<(Name, Ino)>): seq<byte> {
    if es == [] then [] else Cat(es[..|es| - 1]) + EntryBytes(es[|es| - 1].0, es[|es| - 1].1)
  }

  /** What these entries mean: each name up to its first NUL, bound where it occurs first. */
  function Firsts(es: seq<(Name, Ino)>): Children {
    if es == [] then map[]
    else
      var before, n := Firsts(es[..|es| - 1]), CString(es[|es| - 1].0);
      if n in before then before else before[n := es[|es| - 1].1]
  }

  /** A name is bound where it occurs first, entry `k`, or it occurs nowhere. */
  lemma {:induction false} FirstWins(es: seq<(Name, Ino)>, n: Name) returns (k: nat)
    ensures n in Firsts(es) ==> k < |es| && BoundAt(es, n, k) && Firsts(es)[n] == es[k].1
    ensures n !in Firsts(es) ==> forall j :: 0 <= j < |es| ==> CString(es[j].0) != n
  {
    k := 0;
    if es != [] {
      var init := es[..|es| - 1];
      k := FirstWins(init, n);
      assert forall j :: 0 <= j < |init| ==> es[j] == init[j];
      if n !in Firsts(init) { k := |init|; }
    }
  }

  /** Entry `k` is the first for name `n`. */
  ghost predicate BoundAt(es: seq<(Name, Ino)>, n: Name, k: nat)
    requires k < |es|
  {
    CString(es[k].0) == n && forall j :: 0 <= j < k ==> CString(es[j].0) != n
  }

  /** The buffer holds the number of entries and then the entries, with anything behind them. */
  ghost predicate HoldsEntries(raw: seq<byte>, es: seq<(Name, Ino)>) {
    && (forall k :: 0 <= k < |es| ==> |es[k].0| < INT_LIMIT)
    && 8 + |Cat(es)| <= |raw| && FromLe(raw[..8]) == |es| && raw[8..8 + |Cat(es)|] == Cat(es)
  }

  lemma {:induction false} CatPrefix(es: seq<(Name, Ino)>, k: nat)
    requires k <= |es|
    ensures |Cat(es[..k])| <= |Cat(es)| && Cat(es)[..|Cat(es[..k])|] == Cat(es[..k])
    decreases |es|
  {
    if k < |es| {
      var init := es[..|es| - 1];
      CatPrefix(init, k);
      assert init[..k] == es[..k];
      assert Cat(es)[..|Cat(init)|] == Cat(init);
    } else {
      assert es[..k] == es;
    }
  }

  /** Entry `k` sits right after the entries before it. */
  lemma EntryAt(es: seq<(Name, Ino)>, raw: seq<byte>, k: nat)
    requires HoldsEntries(raw, es) && k < |es|
    ensures var at, e := 8 + |Cat(es[..k])|, EntryBytes(es[k].0, es[k].1);
      at + |e| <= |raw| && raw[at..at + |e|] == e && 8 + |Cat(es[..k + 1])| == at + |e|
  {
    assert es[..k] + [(es[k].0, es[k].1)] == es[..k + 1];
    OneMoreEntry(es[..k], es[k].0, es[k].1);
    CatPrefix(es, k + 1);
    PartOf(raw, Cat(es), Cat(es[..k]), EntryBytes(es[k].0, es[k].1));
  }

  lemma PartOf(raw: seq<byte>, whole: seq<byte>, before: seq<byte>, e: seq<byte>)
    requires 8 + |whole| <= |raw| && raw[8..8 + |whole|] == whole
    requires |before + e| <= |whole| && whole[..|before + e|] == before + e
    ensures var at := 8 + |before|; at + |e| <= |raw| && raw[at..at + |e|] == e
  {
    SliceOfSlice(raw, 8, 8 + |whole|, |before|, |before + e|);
    Last(whole, before, e);
  }

  lemma Last(whole: seq<byte>, before: seq<byte>, e: seq<byte>)
    requires |before + e| <= |whole| && whole[..|before + e|] == before + e
    ensures whole[|before|..|before + e|] == e
  {
    forall i | 0 <= i < |e| ensures whole[|before|..|before + e|][i] == e[i] {
      assert whole[|before| + i] == whole[..|before + e|][|before| + i] == (before + e)[|before| + i];
    }
  }

  lemma DecodesEntry(raw: seq<byte>, cur: Cursor, n: Name, i: Ino)
    requires |n| < INT_LIMIT
    requires var e := EntryBytes(n, i); cur.at + |e| <= |raw| && raw[cur.at..cur.at + |e|] == e
    ensures DecodeEntry(raw, cur) == Some(Cursor(
      if CString(n) in cur.list then cur.list else cur.list[CString(n) := i], cur.at + |EntryBytes(n, i)|))
  {
    assert INT_LIMIT < Pow256(4);
    LeRoundTrip(|n|, 4);
    ThreeParts(raw, cur.at, ToLe(|n|, 4), n, i);
    EntryIs(raw, cur, |n|, n, i);
  }

  lemma EntryIs(raw: seq<byte>, cur: Cursor, len: nat, n: Name, i: Ino)
    requires len < INT_LIMIT && cur.at + 20 + len <= |raw| && FromLe(raw[cur.at..cur.at + 4]) == len
    requires raw[cur.at + 4..cur.at + 4 + len] == n && raw[cur.at + 4 + len..cur.at + 4 + len + 16] == i
    ensures DecodeEntry(raw, cur) == Some(Cursor(
      if CString(n) in cur.list then cur.list else cur.list[CString(n) := i], cur.at + 20 + len))
  {
  }

  /** Taking apart what was put together, and the other way round. */
  lemma ThreeParts(raw: seq<byte>, at: nat, x: seq<byte>, y: seq<byte>, z: seq<byte>)
    requires at + |x| + |y| + |z| <= |raw|
    ensures raw[at..at + |x| + |y| + |z|] == x + y + z <==>
      && raw[at..at + |x|] == x && raw[at + |x|..at + |x| + |y|] == y
      && raw[at + |x| + |y|..at + |x| + |y| + |z|] == z
  {
    var w := raw[at..at + |x| + |y| + |z|];
    SliceOfSlice(raw, at, at + |w|, 0, |x|);
    SliceOfSlice(raw, at, at + |w|, |x|, |x| + |y|);
    SliceOfSlice(raw, at, at + |w|, |x| + |y|, |w|);
    Split(w, x, y, z);
  }

  lemma Split(w: seq<byte>, x: seq<byte>, y: seq<byte>, z: seq<byte>)
    requires |w| == |x| + |y| + |z|
    ensures w == x + y + z <==> w[0..|x|] == x && w[|x|..|x| + |y|] == y && w[|x| + |y|..|w|] == z
  {
    assert w == w[0..|x|] + w[|x|..|x| + |y|] + w[|x| + |y|..|w|];
  }

  /** Where the loop stands after `k` entries. */
  function Reached(es: seq<(Name, Ino)>, k: nat): Cursor
    requires k <= |es|
  {
    Cursor(Firsts(es[..k]), 8 + |Cat(es[..k])|)
  }

  lemma DecodesNext(es: seq<(Name, Ino)>, raw: seq<byte>, k: nat)
    requires HoldsEntries(raw, es) && k < |es|
    ensures DecodeEntry(raw, Reached(es, k)) == Some(Reached(es, k + 1))
  {
    EntryAt(es, raw, k);
    DecodesEntry(raw, Reached(es, k), es[k].0, es[k].1);
    assert es[..k + 1][..k] == es[..k];
  }

  /** Where each entry leads to the next position, the loop goes through all of them. */
  lemma {:induction false} DecodesPrefix(raw: seq<byte>, stops: seq<Cursor>, k: nat)
    requires k < |stops| && stops[0] == Cursor(map[], 8)
    requires forall j :: 0 <= j < |stops| - 1 ==> Leads(raw, stops, j)
    ensures DecodeUpTo(raw, k) == Some(stops[k])
  {
    if k > 0 {
      DecodesPrefix(raw, stops, k - 1);
      assert Leads(raw, stops, k - 1);
    }
  }

  ghost predicate Leads(raw: seq<byte>, stops: seq<Cursor>, j: nat)
    requires j + 1 < |stops|
  {
    DecodeEntry(raw, stops[j]) == Some(stops[j + 1])
  }

  lemma DecodesAll(raw: seq<byte>, es: seq<(Name, Ino)>)
    requires HoldsEntries(raw, es)
    ensures DecodeUpTo(raw, |es|) == Some(Reached(es, |es|))
  {
    var stops := seq(|es| + 1, k requires 0 <= k <= |es| => Reached(es, k));
    assert Reached(es, 0) == Cursor(map[], 8) by { assert es[..0] == []; }
    forall j | 0 <= j < |stops| - 1 ensures Leads(raw, stops, j) { DecodesNext(es, raw, j); }
    DecodesPrefix(raw, stops, |es|);
  }

  /** Whatever entries a buffer holds, decoding gives their meaning. */
  lemma DecodesToMeaning(raw: seq<byte>, es: seq<(Name, Ino)>)
    requires HoldsEntries(raw, es)
    ensures Decode(raw) == Some(Firsts(es))
  {
    DecodesAll(raw, es);
    assert es[..|es|] == es;
  }

  /** One turn of the loop read one entry. */
  lemma EntryRead(raw: seq<byte>, cur: Cursor) returns (n: Name, i: Ino)
    requires DecodeEntry(raw, cur).Some?
    ensures |n| < INT_LIMIT
    ensures var e := EntryBytes(n, i); cur.at + |e| <= |raw| && raw[cur.at..cur.at + |e|] == e
  {
    var at := cur.at;
    var len := FromLe(raw[at..at + 4]);
    n, i := raw[at + 4..at + 4 + len], raw[at + 4 + len..at + 4 + len + 16];
    var l := raw[at..at + 4];
    BytesRoundTrip(l);
    ThreeParts(raw, at, l, n, i);
    assert EntryBytes(n, i) == l + n + i;
  }

  /** Up to where the loop stands, the buffer holds these entries. */
  ghost predicate ReadAs(raw: seq<byte>, es: seq<(Name, Ino)>, cur: Cursor) {
    && (forall j :: 0 <= j < |es| ==> |es[j].0| < INT_LIMIT)
    && 8 + |Cat(es)| <= |raw| && raw[8..8 + |Cat(es)|] == Cat(es) && cur == Cursor(Firsts(es), 8 + |Cat(es)|)
  }

  lemma ReadOneMore(raw: seq<byte>, es: seq<(Name, Ino)>, cur: Cursor) returns (more: seq<(Name, Ino)>)
    requires ReadAs(raw, es, cur) && DecodeEntry(raw, cur).Some?
    ensures |more| == |es| + 1 && ReadAs(raw, more, DecodeEntry(raw, cur).value)
  {
    var n, i := EntryRead(raw, cur);
    DecodesEntry(raw, cur, n, i);
    more := es + [(n, i)];
    ReadAppended(raw, es, cur, n, i, DecodeEntry(raw, cur).value);
  }

  lemma ReadAppended(raw: seq<byte>, es: seq<(Name, Ino)>, cur: Cursor, n: Name, i: Ino, next: Cursor)
    requires ReadAs(raw, es, cur) && |n| < INT_LIMIT
    requires var e := EntryBytes(n, i); cur.at + |e| <= |raw| && raw[cur.at..cur.at + |e|] == e
    requires next.at == cur.at + |EntryBytes(n, i)|
    requires next.list == if CString(n) in cur.list then cur.list else cur.list[CString(n) := i]
    ensures ReadAs(raw, es + [(n, i)], next)
  {
    Appended(raw, Cat(es), EntryBytes(n, i));
    OneMoreEntry(es, n, i);
  }

  lemma OneMoreEntry(es: seq<(Name, Ino)>, n: Name, i: Ino)
    ensures Cat(es + [(n, i)]) == Cat(es) + EntryBytes(n, i)
    ensures Firsts(es + [(n, i)]) ==
      if CString(n) in Firsts(es) then Firsts(es) else Firsts(es)[CString(n) := i]
  {
    assert (es + [(n, i)])[..|es|] == es;
  }

  lemma ReadNothing(raw: seq<byte>)
    requires |raw| >= 8
    ensures DecodeUpTo(raw, 0) == Some(Cursor(map[], 8)) && ReadAs(raw, [], Cursor(map[], 8))
  {
  }

  lemma {:induction false} EntriesRead(raw: seq<byte>, k: nat) returns (es: seq<(Name, Ino)>, cur: Cursor)
    requires |raw| >= 8 && DecodeUpTo(raw, k).Some?
    ensures DecodeUpTo(raw, k) == Some(cur) && |es| == k && ReadAs(raw, es, cur)
  {
    es, cur := [], Cursor(map[], 8);
    if k == 0 {
      ReadNothing(raw);
    } else {
      var before, last := EntriesRead(raw, k - 1);
      DecodeMore(raw, k - 1, last);
      es := ReadOneMore(raw, before, last);
      cur := DecodeEntry(raw, last).value;
    }
  }

  lemma Appended(raw: seq<byte>, a: seq<byte>, b: seq<byte>)
    requires 8 + |a| + |b| <= |raw| && raw[8..8 + |a|] == a && raw[8 + |a|..8 + |a| + |b|] == b
    ensures raw[8..8 + |a + b|] == a + b
  {
  }

  /**
    Decoding is exact: it succeeds on a buffer if and only if the buffer holds entries, and then gives their
    meaning, repeated and NUL-holding names included.
   */
  lemma DecodesExactly(raw: seq<byte>)
    ensures Decode(raw).Some? <==> exists es :: HoldsEntries(raw, es)
    ensures forall es :: HoldsEntries(raw, es) ==> Decode(raw) == Some(Firsts(es))
  {
    forall es | HoldsEntries(raw, es) ensures Decode(raw) == Some(Firsts(es)) { DecodesToMeaning(raw, es); }
    if Decode(raw).Some? {
      var es, _ := EntriesRead(raw, FromLe(raw[..8]));
      assert HoldsEntries(raw, es);
    }
  }

  // ---- Round trip ----

  /** The entries of a list in the order walked. */
  function Pairs(order: seq<Name>, c: Children): (es: seq<(Name, Ino)>)
    requires forall k :: 0 <= k < |order| ==> order[k] in c
    ensures |es| == |order| && forall k :: 0 <= k < |order| ==> es[k] == (order[k], c[order[k]])
  {
    seq(|order|, k requires 0 <= k < |order| => (order[k], c[order[k]]))
  }

  lemma {:induction false} EntriesAreCat(order: seq<Name>, c: Children)
    requires forall k :: 0 <= k < |order| ==> order[k] in c
    ensures Entries(order, c) == Cat(Pairs(order, c))
  {
    if order != [] {
      EntriesAreCat(order[..|order| - 1], c);
      assert Pairs(order, c)[..|order| - 1] == Pairs(order[..|order| - 1], c);
    }
  }

  /** The buffer starts with the encoding of `c`, walked in `order`. */
  ghost predicate Holds(raw: seq<byte>, order: seq<Name>, c: Children) {
    && Enumerates(order, c.Keys)
    && (forall n :: n in c ==> NulFree(n) && |n| < INT_LIMIT)
    && |Encode(order, c)| <= |raw| && raw[..|Encode(order, c)|] == Encode(order, c)
  }

  lemma EncodedHolds(order: seq<Name>, c: Children, raw: seq<byte>)
    requires Holds(raw, order, c) && |order| < Pow256(8)
    ensures HoldsEntries(raw, Pairs(order, c))
  {
    EntriesAreCat(order, c);
    LeRoundTrip(|order|, 8);
    Begins(raw, ToLe(|order|, 8), Entries(order, c));
    forall k | 0 <= k < |order| ensures |Pairs(order, c)[k].0| < INT_LIMIT { assert order[k] in c.Keys; }
  }

  lemma Begins(raw: seq<byte>, l: seq<byte>, s: seq<byte>)
    requires |l + s| <= |raw| && raw[..|l + s|] == l + s
    ensures raw[..|l|] == l && raw[|l|..|l| + |s|] == s
  {
    assert raw[..|l|] == raw[..|l + s|][..|l|];
    assert raw[|l|..|l| + |s|] == raw[..|l + s|][|l|..];
  }

  lemma FirstsOfPairs(order: seq<Name>, c: Children)
    requires Enumerates(order, c.Keys) && forall n :: n in c ==> NulFree(n)
    ensures Firsts(Pairs(order, c)) == c
  {
    forall n ensures (n in Firsts(Pairs(order, c)) <==> n in c) && (n in c ==> Firsts(Pairs(order, c))[n] == c[n]) {
      FirstOfPairs(order, c, n);
    }
  }

  lemma FirstOfPairs(order: seq<Name>, c: Children, n: Name)
    requires Enumerates(order, c.Keys) && forall n :: n in c ==> NulFree(n)
    ensures (n in Firsts(Pairs(order, c)) <==> n in c) && (n in c ==> Firsts(Pairs(order, c))[n] == c[n])
  {
    var es := Pairs(order, c);
    var k := FirstWins(es, n);
    forall j | 0 <= j < |es| ensures CString(es[j].0) == order[j] { CStringWhole(order[j]); }
    if n in c {
      var j :| 0 <= j < |order| && order[j] == n;
      assert CString(es[j].0) == n;
    }
  }

  /**
    The dentry round trip: whatever follows the encoding in the buffer, and in whatever order the map
    was walked, decoding gives the child list back.
   */
  lemma DentryRoundTrip(order: seq<Name>, c: Children, raw: seq<byte>)
    requires Holds(raw, order, c) && |order| < Pow256(8)
    ensures Decode(raw) == Some(c)
  {
    EncodedHolds(order, c, raw);
    DecodesToMeaning(raw, Pairs(order, c));
    FirstsOfPairs(order, c);
  }

  /** An entry at `at`: the name's length as an int, the name, the inode number. */
  predicate EntryThere(raw: seq<byte>, at: nat, n: Name, i: Ino) {
    && at + 20 + |n| <= |raw| && raw[at..at + 4] == ToLe(|n|, 4)
    && raw[at + 4..at + 4 + |n|] == n && raw[at + 4 + |n|..at + 20 + |n|] == i
  }

  /** Where an entry is in an encoding: behind the number of entries and the entries before it. */
  lemma EntryWritten(front: seq<Name>, n: Name, rest: seq<Name>, c: Children)
    requires forall m :: m in front + [n] + rest ==> m in c
    ensures EntryThere(Encode(front + [n] + rest, c), RawSize(front), n, c[n])
  {
    var order := front + [n] + rest;
    assert |Encode(order, c)| == 8 + |Entries(order, c)|;
    assert Encode(order, c)[8..8 + |Entries(order, c)|] == Entries(order, c);
    EntriesSplit(front, n, rest, order, c);
    FieldsThere(Encode(order, c), Entries(order, c), Entries(front, c), RawSize(front), n, c[n]);
  }

  lemma EntriesSplit(front: seq<Name>, n: Name, rest: seq<Name>, order: seq<Name>, c: Children)
    requires order == front + [n] + rest && forall m :: m in order ==> m in c
    ensures var whole, part := Entries(order, c), Entries(front, c) + EntryBytes(n, c[n]);
      |part| <= |whole| && whole[..|part|] == part
    ensures RawSize(front) == 8 + |Entries(front, c)|
  {
    assert (front + [n])[..|front|] == front && order[..|front| + 1] == front + [n];
    EntriesLength(front, c);
    EntriesPrefix(order, c, |front| + 1);
  }

  lemma FieldsThere(e: seq<byte>, whole: seq<byte>, before: seq<byte>, at: nat, n: Name, i: Ino)
    requires |e| == 8 + |whole| && e[8..8 + |whole|] == whole && at == 8 + |before|
    requires var part := before + EntryBytes(n, i); |part| <= |whole| && whole[..|part|] == part
    ensures EntryThere(e, at, n, i)
  {
    PartOf(e, whole, before, EntryBytes(n, i));
    ThreeParts(e, at, ToLe(|n|, 4), n, i);
  }

  /** The number of entries as a size_t, and behind it the entries. */
  lemma EntriesBehind(order: seq<Name>, c: Children)
    requires forall j :: 0 <= j < |order| ==> order[j] in c
    ensures |Encode(order, c)| == 8 + |Entries(order, c)| && Encode(order, c)[..8] == ToLe(|order|, 8)
    ensures Encode(order, c)[8..8 + |Entries(order, c)|] == Entries(order, c)
  {
  }

  /** The zeroed buffer of one object size after reading the object into it. */
  function Image(b: seq<byte>): seq<byte> {
    FlatRead(b, 0, OBJ_SIZE) + Zeros(OBJ_SIZE - |FlatRead(b, 0, OBJ_SIZE)|)
  }

  /** That buffer is the object cut or zero-extended to the object size. */
  lemma ImageIs(b: seq<byte>)
    ensures Image(b) == Resized(b, OBJ_SIZE)
  {
  }

  /** A child list that one dentry object can hold. */
  ghost predicate Fits(order: seq<Name>, c: Children) {
    RawSize(order) <= OBJ_SIZE && forall n :: n in c ==> NulFree(n)
  }

  lemma {:induction false} NameFits(order: seq<Name>, k: nat)
    requires k < |order|
    ensures |order[k]| <= NameBytes(order)
  {
    if k < |order| - 1 { NameFits(order[..|order| - 1], k); }
  }

  /** Through the store: after the list is written over any earlier object, longer or shorter, loading gives it back. */
  lemma StoredRoundTrip(order: seq<Name>, c: Children, was: seq<byte>)
    requires Enumerates(order, c.Keys) && Fits(order, c)
    ensures Decode(Image(Blend(was, Encode(order, c), 0))) == Some(c)
  {
    var e, b := Encode(order, c), Blend(was, Encode(order, c), 0);
    EncodeLength(order, c);
    assert b[..|e|] == e;
    assert FlatRead(b, 0, OBJ_SIZE)[..|e|] == e;
    assert Image(b)[..|e|] == e;
    forall n | n in c ensures |n| < INT_LIMIT {
      var k :| 0 <= k < |order| && order[k] == n;
      NameFits(order, k);
      assert OBJ_SIZE < INT_LIMIT;
    }
    assert OBJ_SIZE < Pow256(8);
    DentryRoundTrip(order, c, Image(b));
  }
}

/** The dentry object of a directory, in memory and in the store (client/meta/dentry.cpp). */
module DentryObjects {
  import opened Types
  import opened ObjectKeys
  import opened Striping
  import opened Rados
  import opened DentryCodec
  import opened Transactions

  /** What the store holds for a directory, as the dentry constructor sees it; None is an undecodable object. */
  ghost function StoredDir(objs: Objects, ino: Ino): Option<Dir>
    requires Striped(objs, DentryFile(ino))
  {
    if Count(objs, DentryFile(ino)) == 0 then Some(Absent)
    else match Decode(Image(Contents(objs, DentryFile(ino))))
      case None => None
      case Some(c) => Some(Present(c))
  }

  /** memcpy of `bytes` to raw[at..]. */
  method CopyIn(raw: array<byte>, at: nat, bytes: seq<byte>)
    requires at + |bytes| <= raw.Length
    modifies raw
    ensures raw[..at + |bytes|] == old(raw[..at]) + bytes
  {
    forall i | 0 <= i < |bytes| { raw[at + i] := bytes[i]; }
  }

  class Dentry {
    const ino: Ino
    var childList: Children

    /** The constructor for a new directory, and the empty list that loading starts from. */
    constructor (i: Ino)
      ensures ino == i && childList == map[]
    {
      ino, childList := i, map[];
    }

    method AddChild(name: Name, i: Ino)
      modifies this
      ensures childList == old(childList)[name := i]
    {
      childList := childList[name := i];
    }

    method DeleteChild(name: Name)
      modifies this
      ensures childList == Without(old(childList), name)
    {
      if name in childList { childList := childList - {name}; }
    }

    /** get_child_ino: the nil number stands for a missing name. */
    method GetChildIno(name: Name) returns (i: Ino)
      ensures i == if name in childList then childList[name] else NIL_INO
    {
      if name !in childList { return NIL_INO; }
      i := childList[name];
    }

    method TotalNameLength(order: seq<Name>) returns (total: nat)
      requires Enumerates(order, childList.Keys)
      ensures total == NameBytes(order)
    {
      total := 0;
      for k := 0 to |order|
        invariant total == NameBytes(order[..k])
      {
        assert order[..k + 1][..k] == order[..k];
        total := total + |order[k]|;
      }
      assert order[..|order|] == order;
    }

    /** serialize: the buffer is one byte longer than the encoding, which it starts with. */
    method Serialize(order: seq<Name>) returns (raw: array<byte>)
      requires Enumerates(order, childList.Keys)
      ensures fresh(raw) && raw.Length == RawSize(order) + 1
      ensures raw[..RawSize(order)] == Encode(order, childList)
    {
      var total := TotalNameLength(order);
      raw := new byte[8 + |order| * 4 + total + |order| * 16 + 1](_ => 0);
      CopyIn(raw, 0, ToLe(|order|, 8));
      var at := 8;
      EncodedEnds(order, childList);
      for k := 0 to |order|
        invariant at == |EncodedUpTo(order, childList, k)| <= RawSize(order)
        invariant raw[..at] == EncodedUpTo(order, childList, k)
      {
        EncodedNext(order, childList, k);
        at := PutEntry(raw, at, order[k]);
      }
    }

    /** One turn of the loop of serialize: length, name, inode number. */
    method PutEntry(raw: array<byte>, start: nat, name: Name) returns (at: nat)
      requires name in childList && start + |EntryBytes(name, childList[name])| <= raw.Length
      modifies raw
      ensures at == start + |EntryBytes(name, childList[name])|
      ensures raw[..at] == old(raw[..start]) + EntryBytes(name, childList[name])
    {
      CopyIn(raw, start, ToLe(|name|, 4));
      CopyIn(raw, start + 4, name);
      CopyIn(raw, start + 4 + |name|, childList[name]);
      at := start + 4 + |name| + 16;
    }

    /** deserialize into an empty list: false where the code would read past the buffer. */
    method Deserialize(raw: array<byte>) returns (ok: bool)
      requires childList == map[] && raw.Length == OBJ_SIZE
      modifies this
      ensures ok <==> Decode(raw[..]).Some?
      ensures ok ==> childList == Decode(raw[..]).value
    {
      var bytes := raw[..];
      ok := ReadEntries(bytes, FromLe(bytes[..8]));
    }

    /** The loop of deserialize. */
    method ReadEntries(bytes: seq<byte>, num: nat) returns (ok: bool)
      requires childList == map[]
      modifies this
      ensures ok <==> DecodeUpTo(bytes, num).Some?
      ensures ok ==> childList == DecodeUpTo(bytes, num).value.list
    {
      var at, k := 8, 0;
      while k < num
        invariant k <= num && DecodeUpTo(bytes, k) == Some(Cursor(childList, at))
      {
        var next := DecodeEntry(bytes, Cursor(childList, at));
        DecodeMore(bytes, k, Cursor(childList, at));
        if next.None? {
          StuckForGood(bytes, k + 1, num);
          return false;
        }
        childList, at, k := next.value.list, next.value.at, k + 1;
      }
      ok := true;
    }

    /** sync: the object now decodes to this list, whatever it held before. */
    method Sync(io: RadosIo, order: seq<Name>)
      requires Enumerates(order, childList.Keys) && Striped(io.objs, DentryFile(ino))
      modifies io
      ensures Striped(io.objs, DentryFile(ino)) && OnlyChanges(old(io.objs), io.objs, DentryFile(ino))
      ensures Contents(io.objs, DentryFile(ino)) ==
        Blend(old(Contents(io.objs, DentryFile(ino))), Encode(order, childList), 0)
      ensures Fits(order, childList) ==> StoredDir(io.objs, ino) == Some(Present(childList))
    {
      var raw := Serialize(order);
      var _ := io.Write(DentryFile(ino), raw[..RawSize(order)], 0);
      if Fits(order, childList) {
        StoredRoundTrip(order, childList, old(Contents(io.objs, DentryFile(ino))));
        LaysChosen(io.objs, DentryFile(ino));
      }
    }
  }

  lemma {:induction false} StuckForGood(raw: seq<byte>, j: nat, k: nat)
    requires j <= k && DecodeUpTo(raw, j).None?
    ensures DecodeUpTo(raw, k).None?
  {
    if j < k { StuckForGood(raw, j, k - 1); }
  }

  /** How the dentry constructor ends: a list, the "Dentry Corrupted" error, or a read past its buffer. */
  datatype LoadEnd = Loaded(list: Children) | Corrupted | OutOfBounds

  /** The constructor for an existing directory. */
  method Load(io: RadosIo, d: Dentry) returns (end: LoadEnd)
    requires Striped(io.objs, DentryFile(d.ino)) && d.childList == map[]
    modifies d
    ensures end == Corrupted <==> Count(io.objs, DentryFile(d.ino)) == 0
    ensures end != Corrupted ==>
      var decoded := Decode(Resized(Contents(io.objs, DentryFile(d.ino)), OBJ_SIZE));
      end == (if decoded.Some? then Loaded(decoded.value) else OutOfBounds)
    ensures match StoredDir(io.objs, d.ino)
      case Some(Absent) => end == Corrupted
      case Some(Present(c)) => end == Loaded(c) && d.childList == c
      case Some(Corrupt) => false
      case None => end == OutOfBounds
  {
    ImageIs(Contents(io.objs, DentryFile(d.ino)));
    var raw := new byte[OBJ_SIZE](_ => 0);
    assert raw[..] == Zeros(OBJ_SIZE);
    var got := io.Read(DentryFile(d.ino), raw, OBJ_SIZE, 0);
    if got.NoSuchObject? { return Corrupted; }
    assert raw[..] == Image(Contents(io.objs, DentryFile(d.ino)));
    var ok := d.Deserialize(raw);
    if !ok { return OutOfBounds; }
    end := Loaded(d.childList);
  }
}
