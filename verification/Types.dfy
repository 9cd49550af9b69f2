/** Bytes, names, inode numbers and inode blocks, shared by every part of the model. */
module Types {

  type byte = b: int | 0 <= b < 256

  /** A directory entry name, as the bytes of the C++ string. */
  type Name = seq<byte>

  /** A 16-byte inode number (a UUID). */
  type Ino = s: seq<byte> | |s| == 16 witness seq(16, _ => 0)

  const NIL_INO: Ino := [0, 0, 0, 0, 0, 0, 0, 0, 0, 0, 0, 0, 0, 0, 0, 0]

  datatype Option<+T> = None | Some(value: T)

  /** The child list of one directory: names bound to inode numbers. */
  type Children = map<Name, Ino>

  /** sizeof(struct _core) on x86-64. */
  const INODE_CORE_SIZE := 104

  /**
    An inode block as the code stores it: the raw bytes of `struct _core` (with i_ino at
    bytes 12..28, i_mtime at 64..80 and i_ctime at 80..96) followed by the link target.
   */
  datatype InodeBlock = InodeBlock(core: seq<byte>, link: seq<byte>)

  type Inode = i: InodeBlock | |i.core| == INODE_CORE_SIZE
    witness InodeBlock(seq(INODE_CORE_SIZE, _ => 0), [])

  function InoOf(i: Inode): Ino {
    i.core[12..28]
  }

  /** `cur` with its modification and change times replaced by those of `from`. */
  function WithTimes(cur: Inode, from: Inode): Inode {
    InodeBlock(cur.core[..64] + from.core[64..96] + cur.core[96..], cur.link)
  }

  /** The little-endian number spelled by `s`. */
  function FromLe(s: seq<byte>): nat {
    if s == [] then 0 else s[0] + 256 * FromLe(s[1..])
  }

  /** `n` in `width` little-endian bytes, truncated as a C++ cast truncates. */
  function ToLe(n: nat, width: nat): (s: seq<byte>)
    ensures |s| == width
  {
    if width == 0 then [] else [n % 256] + ToLe(n / 256, width - 1)
  }

  function Pow256(width: nat): nat {
    if width == 0 then 1 else 256 * Pow256(width - 1)
  }

  /** Every number that fits in `width` bytes survives the trip through its bytes. */
  lemma {:induction false} LeRoundTrip(n: nat, width: nat)
    requires n < Pow256(width)
    ensures FromLe(ToLe(n, width)) == n
  {
    if width > 0 {
      LeRoundTrip(n / 256, width - 1);
      assert ToLe(n, width)[1..] == ToLe(n / 256, width - 1);
    }
  }

  /** Splitting bytes into a number and splicing them gives the bytes back. */
  lemma {:induction false} BytesRoundTrip(s: seq<byte>)
    ensures ToLe(FromLe(s), |s|) == s
  {
    if s != [] {
      BytesRoundTrip(s[1..]);
      assert (s[0] + 256 * FromLe(s[1..])) % 256 == s[0] && (s[0] + 256 * FromLe(s[1..])) / 256 == FromLe(s[1..]);
    }
  }

  /** Little-endian, digit by digit: the four bytes of an int, and the eight of a size_t as two such halves. */
  lemma LittleEndian(n: nat)
    ensures ToLe(n, 4) == [n % 256, n / 256 % 256, n / 65536 % 256, n / 16777216 % 256]
    ensures ToLe(n, 8) == ToLe(n, 4) + ToLe(n / 4294967296, 4)
  {
    FourDigits(n);
    FirstDigits(n, 4);
  }

  lemma FourDigits(n: nat)
    ensures ToLe(n, 4) == [n % 256, n / 256 % 256, n / 65536 % 256, n / 16777216 % 256]
  {
    FirstDigits(n, 0);
  }

  lemma FirstDigits(n: nat, k: nat)
    ensures ToLe(n, k + 4) ==
      [n % 256, n / 256 % 256, n / 65536 % 256, n / 16777216 % 256] + ToLe(n / 4294967296, k)
  {
    var a, b, c := n / 256, n / 65536, n / 16777216;
    assert a / 256 == b && b / 256 == c && c / 256 == n / 4294967296;
    assert ToLe(n, k + 4) == [n % 256] + ToLe(a, k + 3);
    assert ToLe(a, k + 3) == [a % 256] + ToLe(b, k + 2);
    assert ToLe(b, k + 2) == [b % 256] + ToLe(c, k + 1);
    assert ToLe(c, k + 1) == [c % 256] + ToLe(n / 4294967296, k);
  }

  lemma SliceOfSlice<T>(s: seq<T>, a: nat, b: nat, i: nat, j: nat)
    requires a <= b <= |s| && i <= j <= b - a
    ensures s[a..b][i..j] == s[a + i..a + j]
  {
    var left, right := s[a..b][i..j], s[a + i..a + j];
    forall k | 0 <= k < j - i ensures left[k] == right[k] {}
  }

  /** The next `n` elements from `a` on, and what comes after them. */
  lemma SliceFrom<T>(s: seq<T>, a: nat, n: nat)
    requires a + n <= |s|
    ensures s[a..][..n] == s[a..a + n] && s[a..][n..] == s[a + n..]
  {
    forall k | 0 <= k < n ensures s[a..][..n][k] == s[a..a + n][k] {}
    forall k | 0 <= k < |s| - a - n ensures s[a..][n..][k] == s[a + n..][k] {}
  }

  lemma Regroup<T>(a: seq<T>, b: seq<T>, c: seq<T>)
    ensures (a + b) + c == a + (b + c)
  {
  }
}
