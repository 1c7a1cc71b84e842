// Byte strings, big-endian fixed-width integers (the ">B", ">H" and ">I"
// formats of Python's struct module) and Python's clamping slice semantics.

module Bytes {

  /** One octet. Python 2 `str` values (wire data and host names alike) are byte strings. */
  type byte = b: int | 0 <= b < 256

  /** The label separator '.' (ASCII 0x2E). */
  const DOT: byte := 0x2E

  predicate IsU8(v: int) { 0 <= v < 0x100 }
  predicate IsU16(v: int) { 0 <= v < 0x1_0000 }
  predicate IsU32(v: int) { 0 <= v < 0x1_0000_0000 }

  /** struct.pack(">H", v) */
  function PackU16(v: int): (r: seq<byte>)
    requires IsU16(v)
    ensures |r| == 2 && (r[0] as int) * 0x100 + r[1] == v
  {
    [v / 0x100, v % 0x100]
  }

  /** struct.pack(">I", v) */
  function PackU32(v: int): (r: seq<byte>)
    requires IsU32(v)
    ensures |r| == 4 && (((r[0] as int) * 0x100 + r[1]) * 0x100 + r[2]) * 0x100 + r[3] == v
  {
    PackU16(v / 0x1_0000) + PackU16(v % 0x1_0000)
  }

  /** struct.unpack(">H", s[i:i+2]) on a slice that holds two bytes. */
  function U16At(s: seq<byte>, i: nat): (v: int)
    requires i + 2 <= |s|
    ensures IsU16(v)
  {
    (s[i] as int) * 0x100 + s[i + 1]
  }

  /** struct.unpack(">I", s[i:i+4]) on a slice that holds four bytes. */
  function U32At(s: seq<byte>, i: nat): (v: int)
    requires i + 4 <= |s|
    ensures IsU32(v)
  {
    (((s[i] as int) * 0x100 + s[i + 1]) * 0x100 + s[i + 2]) * 0x100 + s[i + 3]
  }

  /** Reading back what PackU16 wrote, wherever it sits in a longer string. */
  lemma U16AtPacked(s: seq<byte>, i: nat, v: int)
    requires IsU16(v) && i + 2 <= |s| && s[i..i + 2] == PackU16(v)
    ensures U16At(s, i) == v
  {
    assert s[i] == s[i..i + 2][0] && s[i + 1] == s[i..i + 2][1];
  }

  /** Reading back what PackU32 wrote, wherever it sits in a longer string. */
  lemma U32AtPacked(s: seq<byte>, i: nat, v: int)
    requires IsU32(v) && i + 4 <= |s| && s[i..i + 4] == PackU32(v)
    ensures U32At(s, i) == v
  {
    assert s[i] == s[i..i + 4][0] && s[i + 1] == s[i..i + 4][1];
    assert s[i + 2] == s[i..i + 4][2] && s[i + 3] == s[i..i + 4][3];
  }

  function Min(a: int, b: int): int { if a <= b then a else b }

  /** Python's s[a:b] for non-negative bounds: both ends are clamped to the length. */
  function Slice(s: seq<byte>, a: nat, b: nat): (r: seq<byte>)
    ensures |r| <= |s|
    ensures a <= b <= |s| ==> r == s[a..b]
    ensures a <= b && a <= |s| ==> r == s[a..Min(b, |s|)]
    ensures b <= a ==> r == []
  {
    var lo := Min(a, |s|);
    var hi := Min(b, |s|);
    if hi <= lo then [] else s[lo..hi]
  }

  /** Python's s[a:] for a non-negative start. */
  function Drop(s: seq<byte>, a: nat): (r: seq<byte>)
    ensures a <= |s| ==> r == s[a..]
    ensures a >= |s| ==> r == []
  {
    s[Min(a, |s|)..]
  }

  /** Python's s[start:] for any start: a negative start counts from the end, and is then clamped at 0. */
  function PySuffix(s: seq<byte>, start: int): (r: seq<byte>)
    ensures 0 <= start <= |s| ==> r == s[start..]
    ensures -|s| <= start < 0 ==> r == s[|s| + start..]
  {
    if start >= 0 then Drop(s, start)
    else if |s| + start >= 0 then s[|s| + start..]
    else s
  }

  /** Splitting a prefix at an inner index. */
  lemma PrefixSplit(s: seq<byte>, lo: nat, hi: nat)
    requires lo <= hi <= |s|
    ensures s[..hi] == s[..lo] + s[lo..hi]
  {
  }

  /** Regrouping three concatenated strings. */
  lemma Regroup(a: seq<byte>, b: seq<byte>, c: seq<byte>)
    ensures a + b + c == a + (b + c)
  {
  }

  /** True when `suffix` is a suffix of `s`. */
  predicate EndsWith(s: seq<byte>, suffix: seq<byte>)
  {
    |suffix| <= |s| && s[|s| - |suffix|..] == suffix
  }
}
