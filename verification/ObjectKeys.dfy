/** Names of objects in a pool (get_prefix, get_postfix in lib/rados_io/rados_io.cpp). */
module ObjectKeys {
  import opened Types

  datatype Category = INODE | DENTRY | DATA | CLIENT | JOURNAL

  /** One striped file: a category and the key the caller gives (an inode number in text form). */
  datatype FileId = FileId(category: Category, key: string)

  function Prefix(c: Category): (p: string)
    ensures |p| == 2
  {
    match c
    case INODE => "i$"
    case DENTRY => "e$"
    case DATA => "d$"
    case CLIENT => "c$"
    case JOURNAL => "j$"
  }

  function Digit(d: nat): char
    requires d < 10
  {
    '0' + d as char
  }

  /** std::to_string of an unsigned number. */
  function Decimal(n: nat): (s: string)
    ensures |s| > 0 && forall k :: 0 <= k < |s| ==> '0' <= s[k] <= '9'
  {
    if n < 10 then [Digit(n)] else Decimal(n / 10) + [Digit(n % 10)]
  }

  /** The object that holds stripe `num` of file `file`. */
  datatype ObjName = ObjName(file: FileId, num: nat)

  /** The name RADOS sees. */
  function KeyString(o: ObjName): string {
    Prefix(o.file.category) + o.file.key + "#" + Decimal(o.num)
  }

  lemma {:induction false} DecimalInjective(a: nat, b: nat)
    requires Decimal(a) == Decimal(b)
    ensures a == b
  {
    var s, t := Decimal(a), Decimal(b);
    if a < 10 || b < 10 {
      assert |Decimal(a)| == 1 && |Decimal(b)| == 1;
    } else {
      assert s[..|s| - 1] == Decimal(a / 10) && t[..|t| - 1] == Decimal(b / 10);
      DecimalInjective(a / 10, b / 10);
      assert s[|s| - 1] == Digit(a % 10) && t[|t| - 1] == Digit(b % 10);
    }
  }

  /** The stripe number cannot run into the key: it starts after the last '#'. */
  lemma SameTail(p: string, a: string, q: string, b: string)
    requires p + "#" + a == q + "#" + b && |a| <= |b|
    requires forall k :: 0 <= k < |b| ==> '0' <= b[k] <= '9'
    ensures p == q && a == b
  {
    var s := p + "#" + a;
    var i := |s| - |a| - 1;
    assert s[i] == '#';
    assert forall k :: |q| + 1 <= k < |s| ==> s[k] == b[k - |q| - 1];
    assert p == s[..i] && q == s[..i];
    assert a == s[i + 1..] && b == s[i + 1..];
  }

  /**
    Object keys are injective in category, key and object number: no two files share an object.
    A pool indexed by the triple is therefore a pool indexed by the key string.
   */
  lemma KeysInjective(a: ObjName, b: ObjName)
    requires KeyString(a) == KeyString(b)
    ensures a == b
  {
    var p, q := Prefix(a.file.category) + a.file.key, Prefix(b.file.category) + b.file.key;
    if |Decimal(a.num)| <= |Decimal(b.num)| {
      SameTail(p, Decimal(a.num), q, Decimal(b.num));
    } else {
      SameTail(q, Decimal(b.num), p, Decimal(a.num));
    }
    DecimalInjective(a.num, b.num);
    assert p[0] == Prefix(a.file.category)[0] && q[0] == Prefix(b.file.category)[0];
    assert a.file.key == p[2..] && b.file.key == q[2..];
  }

  // ---- Keys made from inode numbers ----

  function HexDigit(d: nat): char
    requires d < 16
  {
    if d < 10 then '0' + d as char else 'a' + (d - 10) as char
  }

  function Hex(s: seq<byte>): (t: string)
    ensures |t| == 2 * |s|
  {
    if s == [] then [] else [HexDigit(s[0] / 16), HexDigit(s[0] % 16)] + Hex(s[1..])
  }

  /** to_string of a UUID: 8-4-4-4-12 hexadecimal digits. */
  function UuidText(ino: Ino): string {
    Hex(ino[..4]) +
    ("-" + (Hex(ino[4..6]) + ("-" + (Hex(ino[6..8]) + ("-" + (Hex(ino[8..10]) + ("-" + Hex(ino[10..]))))))))
  }

  lemma {:induction false} HexInjective(a: seq<byte>, b: seq<byte>)
    requires Hex(a) == Hex(b)
    ensures a == b
  {
    if a != [] {
      assert Hex(a)[0] == Hex(b)[0] && Hex(a)[1] == Hex(b)[1];
      assert Hex(a)[2..] == Hex(a[1..]) && Hex(b)[2..] == Hex(b[1..]);
      HexInjective(a[1..], b[1..]);
      assert a[0] == b[0];
      assert a == [a[0]] + a[1..];
      assert b == [b[0]] + b[1..];
    }
  }

  lemma HexThen(a: seq<byte>, x: string, b: seq<byte>, y: string)
    requires |a| == |b| && Hex(a) + ("-" + x) == Hex(b) + ("-" + y)
    ensures a == b && x == y
  {
    var s, t := Hex(a) + ("-" + x), Hex(b) + ("-" + y);
    assert s[..2 * |a|] == Hex(a) && t[..2 * |b|] == Hex(b);
    assert s[2 * |a| + 1..] == x && t[2 * |b| + 1..] == y;
    HexInjective(a, b);
  }

  lemma UuidTextInjective(a: Ino, b: Ino)
    requires UuidText(a) == UuidText(b)
    ensures a == b
  {
    var x4, y4 := Hex(a[10..]), Hex(b[10..]);
    var x3, y3 := Hex(a[8..10]) + ("-" + x4), Hex(b[8..10]) + ("-" + y4);
    var x2, y2 := Hex(a[6..8]) + ("-" + x3), Hex(b[6..8]) + ("-" + y3);
    var x1, y1 := Hex(a[4..6]) + ("-" + x2), Hex(b[4..6]) + ("-" + y2);
    HexThen(a[..4], x1, b[..4], y1);
    HexThen(a[4..6], x2, b[4..6], y2);
    HexThen(a[6..8], x3, b[6..8], y3);
    HexThen(a[8..10], x4, b[8..10], y4);
    HexInjective(a[10..], b[10..]);
    assert a == a[..4] + a[4..6] + a[6..8] + a[8..10] + a[10..];
    assert b == b[..4] + b[4..6] + b[6..8] + b[8..10] + b[10..];
  }

  function DentryFile(ino: Ino): FileId { FileId(DENTRY, UuidText(ino)) }
  function InodeFile(ino: Ino): FileId { FileId(INODE, UuidText(ino)) }
  function JournalFile(ino: Ino): FileId { FileId(JOURNAL, UuidText(ino)) }
}
