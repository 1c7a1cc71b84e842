// Payload chunking of dns_proto.py: pack_record_hostname cuts an opaque
// byte string into dot-terminated labels of at most 63 bytes, and
// unpack_record_hostname decodes a wire name and removes every dot again.
// pack_record_id and unpack_record_id pass data through unchanged.

module Chunks {
  import opened Bytes
  import opened Names

  /** int(math.ceil(float(n) / 63.0)), the number of labels of at most 63 bytes (section 2.3.4 of RFC 1035); exact for every length a byte string can have. */
  function ChunkCount(n: nat): (c: nat)
    ensures 63 * c >= n && (c == 0 || 63 * (c - 1) < n)
  {
    (n + 62) / 63
  }

  /** The text pack_record_hostname has built after `j` turns of its loop. */
  function ChunksUpTo(d: seq<byte>, j: nat): seq<byte>
    requires j <= ChunkCount(|d|)
    decreases j
  {
    if j == 0 then []
    else ChunksUpTo(d, j - 1) + d[63 * (j - 1)..Min(63 * j, |d|)] + [DOT]
  }

  /** The value pack_record_hostname(d) returns. */
  function Chunked(d: seq<byte>): seq<byte>
  {
    ChunksUpTo(d, ChunkCount(|d|))
  }

  /** pack_record_hostname: one `data[j*63:(j+1)*63] + "."` per turn of the loop. */
  method PackRecordHostname(data: seq<byte>) returns (hostname: seq<byte>)
    ensures hostname == Chunked(data)
  {
    hostname := [];
    var n := ChunkCount(|data|);
    for j := 0 to n
      invariant hostname == ChunksUpTo(data, j)
    {
      hostname := hostname + Slice(data, j * 63, (j + 1) * 63) + [DOT];
    }
  }

  /** Python's `s.replace(".", "")`. */
  function RemoveDots(s: seq<byte>): (r: seq<byte>)
    ensures DOT !in r && |r| <= |s|
    decreases |s|
  {
    if |s| == 0 then []
    else (if s[0] == DOT then [] else [s[0]]) + RemoveDots(s[1..])
  }

  lemma {:induction false} RemoveDotsAppend(a: seq<byte>, b: seq<byte>)
    ensures RemoveDots(a + b) == RemoveDots(a) + RemoveDots(b)
    decreases |a|
  {
    if |a| == 0 {
      assert a + b == b;
    } else {
      var first := if a[0] == DOT then [] else [a[0]];
      assert (a + b)[0] == a[0] && (a + b)[1..] == a[1..] + b;
      assert RemoveDots(a + b) == first + RemoveDots(a[1..] + b);
      assert RemoveDots(a) == first + RemoveDots(a[1..]);
      RemoveDotsAppend(a[1..], b);
      assert first + (RemoveDots(a[1..]) + RemoveDots(b)) == first + RemoveDots(a[1..]) + RemoveDots(b);
    }
  }

  /** Removing the dots from text that has none returns it unchanged. */
  lemma {:induction false} RemoveDotsNone(s: seq<byte>)
    requires DOT !in s
    ensures RemoveDots(s) == s
    decreases |s|
  {
    if |s| > 0 {
      RemoveDotsNone(s[1..]);
    }
  }

  /** The second `replace(".", "")` in unpack_record_hostname changes nothing. */
  lemma RemoveDotsIdempotent(s: seq<byte>)
    ensures RemoveDots(RemoveDots(s)) == RemoveDots(s)
  {
    RemoveDotsNone(RemoveDots(s));
  }

  /** The value unpack_record_hostname(data) returns: the decoded name with its dots removed, twice. */
  function UnpackRecordHostname(data: seq<byte>): (r: seq<byte>)
    ensures DOT !in r
  {
    RemoveDots(RemoveDots(DecodeName(data).name))
  }

  /** pack_record_id: the payload travels as it is. */
  function PackRecordId(data: seq<byte>): (r: seq<byte>)
    ensures r == data
  {
    data
  }

  /** unpack_record_id: the payload travels as it is. */
  function UnpackRecordId(data: seq<byte>): (r: seq<byte>)
    ensures r == data
  {
    data
  }

  /** The length of Chunked(d) for a payload of `n` bytes: one dot per label. */
  function ChunkedLength(n: nat): nat
  {
    n + ChunkCount(n)
  }

  /** Turn j of the loop appends the next 1 to 63 payload bytes. */
  lemma ChunkBounds(d: seq<byte>, j: nat)
    requires 0 < j <= ChunkCount(|d|)
    ensures 63 * (j - 1) < Min(63 * j, |d|) <= 63 * (j - 1) + 63
  {
  }

  /** The first j labels hold the first 63*j payload bytes (fewer at the end), each followed by a dot. */
  lemma {:induction false} ChunksUpToLength(d: seq<byte>, j: nat)
    requires j <= ChunkCount(|d|)
    ensures |ChunksUpTo(d, j)| == Min(63 * j, |d|) + j
    decreases j
  {
    if j > 0 {
      ChunkBounds(d, j);
      ChunksUpToLength(d, j - 1);
    }
  }

  /** Dropping the dots from the first j labels gives the first 63*j payload bytes with their own dots dropped. */
  lemma {:induction false} ChunksUpToDotsRemoved(d: seq<byte>, j: nat)
    requires j <= ChunkCount(|d|)
    ensures RemoveDots(ChunksUpTo(d, j)) == RemoveDots(d[..Min(63 * j, |d|)])
    decreases j
  {
    if j > 0 {
      ChunkBounds(d, j);
      ChunksUpToDotsRemoved(d, j - 1);
      DotsRemovedStep(ChunksUpTo(d, j), ChunksUpTo(d, j - 1), d, 63 * (j - 1), Min(63 * j, |d|));
    }
  }

  /** One more dot-terminated piece of the payload, with the dots removed, extends the prefix read so far. */
  lemma DotsRemovedStep(cur: seq<byte>, prev: seq<byte>, d: seq<byte>, lo: nat, hi: nat)
    requires lo <= hi <= |d| && RemoveDots(prev) == RemoveDots(d[..Min(lo, |d|)])
    requires cur == prev + d[lo..hi] + [DOT]
    ensures RemoveDots(cur) == RemoveDots(d[..hi])
  {
    var piece := d[lo..hi];
    Regroup(prev, piece, [DOT]);
    RemoveDotsAppend(prev, piece + [DOT]);
    RemoveDotsAppend(piece, [DOT]);
    assert RemoveDots([DOT]) == [];
    PrefixSplit(d, lo, hi);
    RemoveDotsAppend(d[..lo], piece);
  }

  /** The first j labels of a payload without a dot (find returns -1) are each 1 to 63 bytes long. */
  lemma {:induction false} ChunksUpToLabels(d: seq<byte>, j: nat)
    requires FindDot(d) == -1 && j <= ChunkCount(|d|)
    ensures ValidLabels(ChunksUpTo(d, j))
    decreases j
  {
    if j > 0 {
      ChunkBounds(d, j);
      ChunksUpToLabels(d, j - 1);
      LabelPieceAppend(ChunksUpTo(d, j), ChunksUpTo(d, j - 1), d, 63 * (j - 1), Min(63 * j, |d|));
    }
  }

  /** LabelRunAppend for a piece of a payload without a dot. */
  lemma LabelPieceAppend(cur: seq<byte>, prev: seq<byte>, d: seq<byte>, lo: nat, hi: nat)
    requires FindDot(d) == -1 && lo < hi <= |d| && hi <= lo + 63 && ValidLabels(prev)
    requires cur == prev + d[lo..hi] + [DOT]
    ensures ValidLabels(cur)
  {
    FindDotNone(d);
    assert DOT !in d[lo..hi];
    LabelRunAppend(prev, d[lo..hi]);
  }

  /** A run of valid labels followed by one more non-empty, dot-free label of at most 63 bytes. */
  lemma {:induction false} LabelRunAppend(a: seq<byte>, text: seq<byte>)
    requires ValidLabels(a) && 0 < |text| <= 63 && DOT !in text
    ensures ValidLabels(a + text + [DOT])
    decreases |a|
  {
    if |a| == 0 {
      assert a + text + [DOT] == text + [DOT] + [];
      FindDotFirst(text, []);
      assert (text + [DOT] + [])[|text| + 1..] == [];
    } else {
      var k := FindDot(a);
      var head := a[..k];
      var tail := a[k + 1..];
      assert a == head + [DOT] + tail;
      FindDotBefore(a);
      FindDotFirst(head, tail + text + [DOT]);
      assert a + text + [DOT] == head + [DOT] + (tail + text + [DOT]);
      LabelRunAppend(tail, text);
      assert (a + text + [DOT])[k + 1..] == tail + text + [DOT];
    }
  }

  /**
   * pack_record_hostname yields ceil(len(d)/63) labels: its length is the
   * payload's plus one dot per label, and for a dot-free payload every
   * label is 1 to 63 bytes long and dropping the dots gives the payload back.
   */
  lemma ChunkedShape(d: seq<byte>)
    ensures |Chunked(d)| == ChunkedLength(|d|)
    ensures DOT !in d ==> ValidLabels(Chunked(d)) && RemoveDots(Chunked(d)) == d
  {
    ChunksUpToLength(d, ChunkCount(|d|));
    if DOT !in d {
      FindDotNone(d);
      ChunksUpToDotsRemoved(d, ChunkCount(|d|));
      assert d[..Min(63 * ChunkCount(|d|), |d|)] == d;
      RemoveDotsNone(d);
      ChunksUpToLabels(d, ChunkCount(|d|));
    }
  }

  /**
   * The CNAME, MX and SRV payload round trip: a dot-free payload, chunked,
   * encoded as a wire name and unpacked again, is the payload.
   */
  lemma UnpackPackedHostname(d: seq<byte>, rest: seq<byte>)
    requires DOT !in d
    ensures Encodable(Chunked(d))
    ensures UnpackRecordHostname(EncodeName(Chunked(d)) + rest) == d
  {
    ChunkedShape(d);
    var h := Chunked(d);
    if |d| == 0 {
      assert h == [];
      assert WithTrailingDot(h) == [DOT];
      assert FindDot([DOT]) == 0 && FindDot([]) == -1;
      assert EncodeSegments([DOT]) == [0];
      assert EncodeName(h) + rest == [0, 0] + rest;
    } else {
      ChunkBounds(d, ChunkCount(|d|));
      assert WithTrailingDot(h) == h;
      DecodeEncodeName(h, rest);
      RemoveDotsIdempotent(h);
    }
  }
}
