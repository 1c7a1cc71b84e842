// Throughput arithmetic of dns_proto.py: how many payload bytes fit into a
// name of a given size once the payload is cut into labels of at most 63
// bytes, each preceded by its length byte. The encoding class's
// get_maximum_length (a foreign object) is a function parameter.

module Capacity {
  import opened Bytes
  import opened Names
  import opened Chunks

  /** calc_max_throughput_id: the encoding's own limit for the space left after the overhead. */
  function CalcMaxThroughputId(maxLength: int, hostname: seq<byte>, overhead: int, getMaximumLength: int -> int): (r: int)
    ensures r == getMaximumLength(maxLength - overhead)
  {
    getMaximumLength(maxLength - overhead)
  }

  /**
   * The `cap` that the label loop of calc_max_throughput_A and
   * calc_max_throughput_CNAME reaches from `m` bytes of room: every 64
   * bytes beyond the last 64 carry a full 63-byte label, and the rest
   * carries one more label after its length byte.
   */
  function LabelCapacity(m: int): int
  {
    if m <= 64 then m - 1 else m - 1 - (m - 1) / 64
  }

  /** One turn of the label loop: 64 bytes of room hold one full label of 63 bytes. */
  lemma LabelCapacityStep(m: int)
    requires m > 64
    ensures LabelCapacity(m) == 63 + LabelCapacity(m - 64)
  {
    assert (m - 1) / 64 == (m - 65) / 64 + 1;
  }

  /** The cap loop shared by calc_max_throughput_A and calc_max_throughput_CNAME. */
  method LabelCapacityLoop(room: int) returns (cap: int)
    ensures cap == LabelCapacity(room)
  {
    var maxLength := room;
    cap := 0;
    while maxLength > 64
      invariant cap + LabelCapacity(maxLength) == LabelCapacity(room)
      decreases maxLength
    {
      LabelCapacityStep(maxLength);
      cap := cap + 63;
      maxLength := maxLength - 64;
    }
    cap := cap + maxLength - 1;
  }

  /** calc_max_throughput_A: the room is what is left after len(hostname) + 1 bytes (a fully qualified hostname and the final zero byte). */
  method CalcMaxThroughputA(maxLength: int, hostname: seq<byte>, overhead: int, getMaximumLength: int -> int) returns (r: int)
    ensures r == getMaximumLength(LabelCapacity(maxLength - (|hostname| + 1))) - overhead
  {
    var cap := LabelCapacityLoop(maxLength - (|hostname| + 1));
    r := getMaximumLength(cap) - overhead;
  }

  /** calc_max_throughput_CNAME: the room is what the final zero byte leaves. */
  method CalcMaxThroughputCname(maxLength: int, hostname: seq<byte>, overhead: int, getMaximumLength: int -> int) returns (r: int)
    ensures r == getMaximumLength(LabelCapacity(maxLength - 1)) - overhead
  {
    var cap := LabelCapacityLoop(maxLength - 1);
    r := getMaximumLength(cap) - overhead;
  }

  /** Euclidean division by 63 after a multiple of 63. */
  lemma DivAfterMultiple(q: nat, x: nat)
    ensures (63 * q + x) / 63 == q + x / 63
  {
  }

  /** More payload never takes less room. */
  lemma ChunkedLengthMonotone(a: nat, b: nat)
    requires a < b
    ensures ChunkedLength(a) < ChunkedLength(b)
  {
  }

  /**
   * The cap is the largest payload whose labels, with one length byte
   * per label, fit in the room: `LabelCapacity(m)` bytes take at most `m`
   * bytes and one more payload byte would not fit.
   */
  lemma LabelCapacityIsLargest(m: int)
    requires m >= 1
    ensures LabelCapacity(m) >= 0
    ensures ChunkedLength(LabelCapacity(m)) <= m < ChunkedLength(LabelCapacity(m) + 1)
  {
    var q := (m - 1) / 64;
    var r := (m - 1) % 64;
    assert m - 1 == 64 * q + r;
    assert LabelCapacity(m) == 63 * q + r;
    DivAfterMultiple(q, r + 62);
    DivAfterMultiple(q, r + 63);
  }

  /** A payload fits in `m` bytes of labels exactly when it is no longer than the cap. */
  lemma FitsIffWithinCapacity(m: int, n: nat)
    requires m >= 1
    ensures n <= LabelCapacity(m) <==> ChunkedLength(n) <= m
  {
    LabelCapacityIsLargest(m);
    var cap := LabelCapacity(m);
    if n < cap {
      ChunkedLengthMonotone(n, cap);
    } else if n > cap + 1 {
      ChunkedLengthMonotone(cap + 1, n);
    }
  }

  /** The wire form of a chunked payload takes one byte per payload byte and per label, and a zero byte. */
  lemma EncodedChunkedLength(d: seq<byte>)
    requires DOT !in d && |d| > 0
    ensures Encodable(Chunked(d))
    ensures |EncodeName(Chunked(d))| == ChunkedLength(|d|) + 1
  {
    ChunkedShape(d);
    ValidLabelsFit(Chunked(d));
    ChunkBounds(d, ChunkCount(|d|));
    assert WithTrailingDot(Chunked(d)) == Chunked(d);
  }

  /**
   * For the CNAME payload (chunked by pack_record_hostname), the wire name
   * fits in `maxLength` bytes exactly when the payload is no longer than
   * the cap calc_max_throughput_CNAME computes.
   */
  lemma CnameCapacityExact(maxLength: int, d: seq<byte>)
    requires maxLength >= 2 && DOT !in d
    ensures Encodable(Chunked(d))
    ensures |d| <= LabelCapacity(maxLength - 1) <==> |EncodeName(Chunked(d))| <= maxLength
  {
    if |d| == 0 {
      // The empty payload packs to the root name, two zero bytes, which always fit.
      ChunkedShape(d);
      ValidLabelsFit(Chunked(d));
      LabelCapacityIsLargest(maxLength - 1);
    } else {
      EncodedChunkedLength(d);
      FitsIffWithinCapacity(maxLength - 1, |d|);
    }
  }

  /**
   * For the A query name, payload labels followed by a fully qualified
   * hostname (one that ends in a dot), the wire name fits in `maxLength`
   * bytes exactly when the payload is no longer than the cap
   * calc_max_throughput_A computes.
   */
  lemma ACapacityExact(maxLength: int, hostname: seq<byte>, d: seq<byte>)
    requires DOT !in d && ValidLabels(hostname) && |hostname| > 0
    requires maxLength - (|hostname| + 1) >= 1
    ensures Encodable(Chunked(d) + hostname)
    ensures |d| <= LabelCapacity(maxLength - (|hostname| + 1)) <==> |EncodeName(Chunked(d) + hostname)| <= maxLength
  {
    EncodedQueryNameLength(hostname, d);
    FitsIffWithinCapacity(maxLength - (|hostname| + 1), |d|);
  }

  /** The wire form of payload labels followed by a fully qualified hostname. */
  lemma EncodedQueryNameLength(hostname: seq<byte>, d: seq<byte>)
    requires DOT !in d && ValidLabels(hostname) && |hostname| > 0
    ensures Encodable(Chunked(d) + hostname)
    ensures |EncodeName(Chunked(d) + hostname)| == ChunkedLength(|d|) + |hostname| + 1
  {
    ChunkedShape(d);
    LabelRunsAppend(Chunked(d), hostname);
    ValidLabelsFit(Chunked(d) + hostname);
    ValidLabelsEndInDot(hostname);
    assert (Chunked(d) + hostname)[|Chunked(d) + hostname| - 1] == hostname[|hostname| - 1];
  }
}
