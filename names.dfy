// The name codec of dns_proto.py: host names as dot-separated text and as
// the length-prefixed label sequence of section 3.1 of RFC 1035.
//
// The decoder only recognises a compression pointer (section 4.1.4 of
// RFC 1035): any length byte above 63 ends the name and counts as two
// consumed bytes, and the pointer is never followed.

module Names {
  import opened Bytes

  /** Python's `s.find(".")`: the index of the first dot, or -1 when there is none. */
  function FindDot(s: seq<byte>): (k: int)
    ensures -1 <= k < |s|
    ensures k >= 0 ==> s[k] == DOT
    decreases |s|
  {
    if |s| == 0 then -1
    else if s[0] == DOT then 0
    else
      var k := FindDot(s[1..]);
      if k == -1 then -1 else k + 1
  }

  /** find returns -1 exactly on text without a dot. */
  lemma {:induction false} FindDotNone(s: seq<byte>)
    ensures FindDot(s) == -1 <==> DOT !in s
    decreases |s|
  {
    if |s| > 0 {
      FindDotNone(s[1..]);
      assert s == [s[0]] + s[1..];
    }
  }

  /** find stops at the first dot: the one right after dot-free text `a`. */
  lemma {:induction false} FindDotFirst(a: seq<byte>, b: seq<byte>)
    requires DOT !in a
    ensures FindDot(a + [DOT] + b) == |a|
    decreases |a|
  {
    if |a| > 0 {
      assert (a + [DOT] + b)[1..] == a[1..] + [DOT] + b;
      FindDotFirst(a[1..], b);
    }
  }

  /** find stops at the first dot: none comes before it. */
  lemma {:induction false} FindDotBefore(s: seq<byte>)
    requires FindDot(s) != -1
    ensures DOT !in s[..FindDot(s)]
    decreases |s|
  {
    if s[0] != DOT {
      FindDotBefore(s[1..]);
      assert s[..FindDot(s)] == [s[0]] + s[1..][..FindDot(s[1..])];
    }
  }

  /** The name after hostname_to_hostnamebin's first step: a dot is appended unless one ends it already. */
  function WithTrailingDot(h: seq<byte>): (r: seq<byte>)
    ensures |r| > 0 && r[|r| - 1] == DOT
    ensures r == h || r == h + [DOT]
    ensures r == h <==> |h| > 0 && h[|h| - 1] == DOT
  {
    if |h| > 0 && h[|h| - 1] == DOT then h else h + [DOT]
  }

  /** Every dot-terminated segment of `s` is short enough for struct.pack("B", length). */
  predicate SegmentsFit(s: seq<byte>)
    decreases |s|
  {
    var k := FindDot(s);
    k == -1 || (k < 0x100 && SegmentsFit(s[k + 1..]))
  }

  /** Each dot-terminated segment of `s` as a length byte and its bytes; text after the last dot is dropped. */
  function EncodeSegments(s: seq<byte>): (r: seq<byte>)
    requires SegmentsFit(s)
    ensures |s| > 0 && s[|s| - 1] == DOT ==> |r| == |s|
    decreases |s|
  {
    var k := FindDot(s);
    if k == -1 then
      FindDotNone(s);
      []
    else
      var len: byte := k;
      [len] + s[..k] + EncodeSegments(s[k + 1..])
  }

  /** One turn of the encoding loop: the first segment, then the rest. */
  lemma EncodeSegmentsStep(s: seq<byte>, k: int)
    requires SegmentsFit(s) && k == FindDot(s) && k != -1
    ensures k < 0x100 && SegmentsFit(s[k + 1..])
    ensures EncodeSegments(s) == [k as byte] + s[..k] + EncodeSegments(s[k + 1..])
  {
  }

  /** hostname_to_hostnamebin does not raise on `h`. */
  predicate Encodable(h: seq<byte>)
  {
    SegmentsFit(WithTrailingDot(h))
  }

  /**
   * The value hostname_to_hostnamebin(h) returns. Whatever the labels, the
   * wire form is one byte longer than the dot-terminated name and ends in
   * a single zero byte, whether or not `h` itself ends in a dot.
   */
  function EncodeName(h: seq<byte>): (r: seq<byte>)
    requires Encodable(h)
    ensures |r| == |WithTrailingDot(h)| + 1 && r[|r| - 1] == 0
  {
    EncodeSegments(WithTrailingDot(h)) + [0]
  }

  /** Regrouping a concatenation around one length byte and its segment. */
  lemma AppendSegment(acc: seq<byte>, len: byte, text: seq<byte>, rest: seq<byte>)
    ensures acc + ([len] + text + rest) == acc + [len] + text + rest
  {
  }

  /** The remaining text after `i`, split at its first dot `k`. */
  lemma SplitRemaining(h: seq<byte>, i: nat, k: nat)
    requires i + k < |h|
    ensures h[i..][..k] == h[i..i + k] && h[i..][k + 1..] == h[i + k + 1..]
  {
  }

  /** One turn of hostname_to_hostnamebin's loop, stated on the remaining text `h[i..]`. */
  lemma EncodeLoopStep(h: seq<byte>, i: nat, k: int, acc: seq<byte>)
    requires SegmentsFit(h) && i <= |h| && SegmentsFit(h[i..]) && k == FindDot(h[i..]) && k != -1
    requires acc + EncodeSegments(h[i..]) == EncodeSegments(h)
    ensures 0 <= k < 0x100 && i + k + 1 <= |h| && SegmentsFit(h[i + k + 1..])
    ensures acc + [k as byte] + h[i..i + k] + EncodeSegments(h[i + k + 1..]) == EncodeSegments(h)
  {
    var t := h[i..];
    EncodeSegmentsStep(t, k);
    SplitRemaining(h, i, k);
    AppendSegment(acc, k as byte, h[i..i + k], EncodeSegments(h[i + k + 1..]));
  }

  /** hostname_to_hostnamebin: a loop that emits one label per dot found. */
  method HostnameToHostnamebin(hostname: seq<byte>) returns (hostnamebin: seq<byte>)
    requires Encodable(hostname)
    ensures hostnamebin == EncodeName(hostname)
  {
    var h := WithTrailingDot(hostname);
    var i: nat := 0;
    hostnamebin := [];
    var k := FindDot(h[i..]);
    while k != -1
      invariant SegmentsFit(h) && i <= |h| && SegmentsFit(h[i..]) && k == FindDot(h[i..])
      invariant hostnamebin + EncodeSegments(h[i..]) == EncodeSegments(h)
      decreases |h| - i
    {
      EncodeLoopStep(h, i, k, hostnamebin);
      hostnamebin := hostnamebin + [k as byte] + h[i..i + k];
      i := i + k + 1;
      k := FindDot(h[i..]);
    }
    assert EncodeSegments(h[i..]) == [];
    hostnamebin := hostnamebin + [0];
  }

  /** Regrouping a concatenation around one label and its dot. */
  lemma AppendLabel(acc: seq<byte>, text: seq<byte>, rest: seq<byte>)
    ensures acc + (text + [DOT] + rest) == acc + text + [DOT] + rest
  {
  }

  /** What hostnamebin_to_hostname returns: the bytes consumed and the dotted name read. */
  datatype Decoded = Decoded(length: nat, name: seq<byte>)

  /**
   * The value hostnamebin_to_hostname(b) returns: the number of bytes the
   * name occupies and the labels read, each followed by a dot. A length
   * byte above 63 adds two and stops, a zero byte adds one and stops, and
   * running out of input stops without adding anything, so nothing is
   * consumed exactly when the input is empty. A label that runs past the
   * end of the input is cut short, but its full length is still counted.
   */
  function DecodeName(b: seq<byte>): (r: Decoded)
    ensures r.length == 0 <==> |b| == 0
    decreases |b|
  {
    if |b| == 0 then Decoded(0, [])
    else if b[0] > 63 then Decoded(2, [])
    else if b[0] == 0 then Decoded(1, [])
    else
      var l := b[0] as nat;
      var next := Min(l + 1, |b|);
      var rest := DecodeName(b[next..]);
      Decoded(l + 1 + rest.length, b[1..next] + [DOT] + rest.name)
  }

  /** Decoding one label of length 1..63 that is present in full, then whatever follows. */
  lemma DecodeLabel(b: seq<byte>, text: seq<byte>, more: seq<byte>)
    requires 0 < |text| <= 63 && b == [|text| as byte] + text + more
    ensures DecodeName(b).length == |text| + 1 + DecodeName(more).length
    ensures DecodeName(b).name == text + [DOT] + DecodeName(more).name
  {
    assert b[1..|text| + 1] == text && b[|text| + 1..] == more;
  }

  /** Where hostnamebin_to_hostname's loop stops: past the end, at a pointer byte or at a zero byte. */
  lemma DecodeStops(b: seq<byte>, i: nat)
    ensures i >= |b| ==> DecodeName(Drop(b, i)) == Decoded(0, [])
    ensures i < |b| && b[i] > 63 ==> DecodeName(Drop(b, i)) == Decoded(2, [])
    ensures i < |b| && b[i] == 0 ==> DecodeName(Drop(b, i)) == Decoded(1, [])
  {
    if i < |b| {
      assert Drop(b, i)[0] == b[i];
    }
  }

  /** One turn of hostnamebin_to_hostname's loop: a label of length l read at offset i, which moves on to offset `next`. */
  lemma DecodeLoopStep(b: seq<byte>, i: nat, l: nat, next: nat)
    requires i < |b| && l == b[i] && 0 < l <= 63 && next == i + l + 1
    ensures DecodeName(Drop(b, i)).length == l + 1 + DecodeName(Drop(b, next)).length
    ensures DecodeName(Drop(b, i)).name == Slice(b, i + 1, i + 1 + l) + [DOT] + DecodeName(Drop(b, next)).name
  {
    var t := b[i..];
    assert t[0] == l;
    assert t[Min(l + 1, |t|)..] == Drop(b, next);
    assert t[1..Min(l + 1, |t|)] == Slice(b, i + 1, i + 1 + l);
  }

  /** The loop invariant of hostnamebin_to_hostname survives reading one label of length l at offset i. */
  lemma DecodeAdvance(b: seq<byte>, i: nat, l: nat, hostname: seq<byte>, next: nat, read: seq<byte>)
    requires i < |b| && l == b[i] && 0 < l <= 63
    requires next == i + l + 1 && read == hostname + Slice(b, i + 1, i + 1 + l) + [DOT]
    requires DecodeName(b).length == i + DecodeName(Drop(b, i)).length
    requires DecodeName(b).name == hostname + DecodeName(Drop(b, i)).name
    ensures DecodeName(b).length == next + DecodeName(Drop(b, next)).length
    ensures DecodeName(b).name == read + DecodeName(Drop(b, next)).name
  {
    DecodeLoopStep(b, i, l, next);
    AppendLabel(hostname, Slice(b, i + 1, i + 1 + l), DecodeName(Drop(b, next)).name);
  }

  /** hostnamebin_to_hostname: a loop over labels that keeps a running length. */
  method HostnamebinToHostname(hostnamebin: seq<byte>) returns (length: nat, hostname: seq<byte>)
    ensures Decoded(length, hostname) == DecodeName(hostnamebin)
  {
    var b := hostnamebin;
    hostname := [];
    var i: nat := 0;
    length := 0;
    assert Drop(b, 0) == b;
    while true
      invariant length == i
      invariant DecodeName(b).length == length + DecodeName(Drop(b, i)).length
      invariant DecodeName(b).name == hostname + DecodeName(Drop(b, i)).name
      decreases |b| - i
    {
      DecodeStops(b, i);
      if |b| <= i {
        break;
      }
      var l: nat := b[i];
      if l > 63 {
        length := length + 2;
        break;
      }
      if l == 0 {
        length := length + 1;
        break;
      }
      var next: nat := i + l + 1;
      var read := hostname + Slice(b, i + 1, i + 1 + l) + [DOT];
      DecodeAdvance(b, i, l, hostname, next, read);
      hostname, length, i := read, next, next;
    }
  }

  /** `s` is a run of dot-terminated labels of 1 to 63 bytes each. */
  predicate ValidLabels(s: seq<byte>)
    decreases |s|
  {
    |s| == 0 || (var k := FindDot(s); 0 < k <= 63 && ValidLabels(s[k + 1..]))
  }

  /** A host name whose labels are non-empty, dot-free and at most 63 bytes; a final dot is optional. */
  predicate ValidHostname(h: seq<byte>)
  {
    ValidLabels(WithTrailingDot(h))
  }

  /** Two runs of valid labels, one after the other, are one run. */
  lemma {:induction false} LabelRunsAppend(a: seq<byte>, b: seq<byte>)
    requires ValidLabels(a) && ValidLabels(b)
    ensures ValidLabels(a + b)
    decreases |a|
  {
    if |a| == 0 {
      assert a + b == b;
    } else {
      var k := FindDot(a);
      var head := a[..k];
      var tail := a[k + 1..];
      SplitAtDot(a, k);
      FindDotBefore(a);
      FindDotFirst(head, tail + b);
      Regroup(head + [DOT], tail, b);
      LabelRunsAppend(tail, b);
      assert (a + b)[k + 1..] == tail + b;
    }
  }

  /** A non-empty run of valid labels ends in a dot. */
  lemma {:induction false} ValidLabelsEndInDot(s: seq<byte>)
    requires ValidLabels(s) && |s| > 0
    ensures s[|s| - 1] == DOT
    decreases |s|
  {
    var k := FindDot(s);
    if k + 1 < |s| {
      ValidLabelsEndInDot(s[k + 1..]);
    }
  }

  lemma {:induction false} ValidLabelsFit(s: seq<byte>)
    requires ValidLabels(s)
    ensures SegmentsFit(s)
    decreases |s|
  {
    if |s| > 0 {
      ValidLabelsFit(s[FindDot(s) + 1..]);
    }
  }

  lemma EncodedThenMore(s: seq<byte>, k: int, rest: seq<byte>)
    requires SegmentsFit(s) && k == FindDot(s) && k != -1
    ensures k < 0x100 && SegmentsFit(s[k + 1..])
    ensures EncodeSegments(s) + [0] + rest == [k as byte] + s[..k] + (EncodeSegments(s[k + 1..]) + [0] + rest)
  {
    EncodeSegmentsStep(s, k);
    RegroupTerminated([k as byte] + s[..k], EncodeSegments(s[k + 1..]), rest);
  }

  /** Regrouping an encoding, its terminating zero and what follows. */
  lemma RegroupTerminated(first: seq<byte>, e: seq<byte>, rest: seq<byte>)
    ensures first + e + [0] + rest == first + (e + [0] + rest)
  {
  }

  /** One label of the round trip: decoding the first encoded segment, given the decoding of the rest. */
  lemma DecodeFirstSegment(s: seq<byte>, k: int, rest: seq<byte>)
    requires ValidLabels(s) && SegmentsFit(s) && |s| > 0 && k == FindDot(s)
    requires SegmentsFit(s[k + 1..])
    requires DecodeName(EncodeSegments(s[k + 1..]) + [0] + rest) == Decoded(|s| - k, s[k + 1..])
    ensures DecodeName(EncodeSegments(s) + [0] + rest) == Decoded(|s| + 1, s)
  {
    var text := s[..k];
    var tail := s[k + 1..];
    var more := EncodeSegments(tail) + [0] + rest;
    EncodedThenMore(s, k, rest);
    SplitAtDot(s, k);
    DecodeLabel(EncodeSegments(s) + [0] + rest, text, more);
  }

  /** Text around a dot at index k. */
  lemma SplitAtDot(s: seq<byte>, k: int)
    requires 0 <= k < |s| && s[k] == DOT
    ensures |s[..k]| == k && s == s[..k] + [DOT] + s[k + 1..]
  {
  }

  lemma {:induction false} DecodeEncodedSegments(s: seq<byte>, rest: seq<byte>)
    requires ValidLabels(s)
    ensures SegmentsFit(s)
    ensures DecodeName(EncodeSegments(s) + [0] + rest) == Decoded(|s| + 1, s)
    decreases |s|
  {
    ValidLabelsFit(s);
    if |s| == 0 {
      assert EncodeSegments(s) + [0] + rest == [0] + rest;
    } else {
      var k := FindDot(s);
      DecodeEncodedSegments(s[k + 1..], rest);
      DecodeFirstSegment(s, k, rest);
    }
  }

  /**
   * Decoding an encoded valid host name, followed by anything, consumes
   * exactly the encoding and returns the name with one trailing dot.
   */
  lemma DecodeEncodeName(h: seq<byte>, rest: seq<byte>)
    requires ValidHostname(h)
    ensures Encodable(h)
    ensures DecodeName(EncodeName(h) + rest) == Decoded(|EncodeName(h)|, WithTrailingDot(h))
  {
    DecodeEncodedSegments(WithTrailingDot(h), rest);
    assert EncodeName(h) + rest == EncodeSegments(WithTrailingDot(h)) + [0] + rest;
  }
}
