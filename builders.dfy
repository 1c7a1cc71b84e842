// The per-type answer builders of dns_proto.py (build_record_*). Every
// answer starts with the compression pointer 0xC00C back to the question
// name at offset 12 (section 4.1.4 of RFC 1035), then TYPE, CLASS, TTL and
// RDLENGTH as in section 4.1.3 of RFC 1035, then the RDATA.

module Builders {
  import opened Bytes
  import opened Names

  /** One answer as the builders lay it out: the fields after the name pointer. */
  datatype ResourceRecord = ResourceRecord(rtype: int, rclass: int, ttl: int, rdlength: int, rdata: seq<byte>)

  /** struct.pack(">HHHIH", ...) accepts the fields. */
  predicate Packable(rr: ResourceRecord)
  {
    IsU16(rr.rtype) && IsU16(rr.rclass) && IsU32(rr.ttl) && IsU16(rr.rdlength)
  }

  predicate AllPackable(rs: seq<ResourceRecord>)
  {
    forall i :: 0 <= i < |rs| ==> Packable(rs[i])
  }

  /** The name field of every answer: a pointer to offset 12, where the question name sits. */
  const NAME_POINTER: int := 0xC00C

  /** struct.pack(">HHHIH", 0xc00c, type, class, ttl, rdlength) + rdata: twelve fixed bytes, then the data. */
  function Wire(rr: ResourceRecord): (r: seq<byte>)
    requires Packable(rr)
    ensures |r| == 12 + |rr.rdata| && r[..2] == [0xC0, 0x0C] && r[12..] == rr.rdata
  {
    PackU16(NAME_POINTER) + PackU16(rr.rtype) + PackU16(rr.rclass) + PackU32(rr.ttl) + PackU16(rr.rdlength) + rr.rdata
  }

  /** The fixed fields of an answer sit at offsets 2, 4, 6 and 10, each as struct.pack lays it out. */
  lemma WireFields(rr: ResourceRecord)
    requires Packable(rr)
    ensures Wire(rr)[0] == 0xC0
    ensures Wire(rr)[2..4] == PackU16(rr.rtype) && Wire(rr)[4..6] == PackU16(rr.rclass)
    ensures Wire(rr)[6..10] == PackU32(rr.ttl) && Wire(rr)[10..12] == PackU16(rr.rdlength)
  {
    var w := Wire(rr);
    assert w[..2] == [0xC0, 0x0C];
  }

  /** The answers one after the other, as the builders' loops concatenate them. */
  function WireAll(rs: seq<ResourceRecord>): (r: seq<byte>)
    requires AllPackable(rs)
    decreases |rs|
  {
    if |rs| == 0 then [] else WireAll(rs[..|rs| - 1]) + Wire(rs[|rs| - 1])
  }

  /** One more turn of a builder's loop appends the next answer. */
  lemma WireAllPrefix(rs: seq<ResourceRecord>, i: nat)
    requires AllPackable(rs) && i < |rs|
    ensures AllPackable(rs[..i]) && AllPackable(rs[..i + 1])
    ensures WireAll(rs[..i + 1]) == WireAll(rs[..i]) + Wire(rs[i])
  {
    assert rs[..i + 1][..i] == rs[..i];
  }

  /** The answers are the first one's bytes followed by the rest's. */
  lemma {:induction false} WireAllCons(rs: seq<ResourceRecord>)
    requires AllPackable(rs) && |rs| > 0
    ensures AllPackable(rs[1..]) && WireAll(rs) == Wire(rs[0]) + WireAll(rs[1..])
    decreases |rs|
  {
    assert AllPackable(rs[1..]) by {
      forall i | 0 <= i < |rs[1..]|
        ensures Packable(rs[1..][i])
      {
        assert rs[1..][i] == rs[i + 1];
      }
    }
    if |rs| > 1 {
      var init := rs[..|rs| - 1];
      assert AllPackable(init) by {
        forall i | 0 <= i < |init|
          ensures Packable(init[i])
        {
          assert init[i] == rs[i];
        }
      }
      WireAllCons(init);
      assert init[0] == rs[0] && init[1..] == rs[1..][..|rs[1..]| - 1];
      assert rs[1..][|rs[1..]| - 1] == rs[|rs| - 1];
      Regroup(Wire(rs[0]), WireAll(init[1..]), Wire(rs[|rs| - 1]));
    } else {
      assert rs[..0] == [] && rs[1..] == [];
    }
  }

  /** A single answer. */
  lemma WireAllOne(rr: ResourceRecord)
    requires Packable(rr)
    ensures AllPackable([rr]) && WireAll([rr]) == Wire(rr)
  {
    assert [rr][..0] == [];
  }

  /** Answers that all take `w` bytes take `w` bytes each in total. */
  lemma {:induction false} WireAllUniform(rs: seq<ResourceRecord>, w: nat)
    requires AllPackable(rs)
    requires forall i :: 0 <= i < |rs| ==> |Wire(rs[i])| == w
    ensures |WireAll(rs)| == w * |rs|
    decreases |rs|
  {
    if |rs| > 0 {
      WireAllUniform(rs[..|rs| - 1], w);
    }
  }

  /** The four values every build_record_* returns. */
  datatype Built = Built(answerNum: int, answers: seq<byte>, additionalNum: int, additional: seq<byte>)

  /** What a builder returns for a list of answers: their number and bytes, and no additional records. */
  function Answers(rs: seq<ResourceRecord>): (b: Built)
    requires AllPackable(rs)
    ensures b.answerNum == |rs| && b.additionalNum == 0 && b.additional == []
  {
    Built(|rs|, WireAll(rs), 0, [])
  }

  /**
   * A zone entry as the builders index it: record[0] is the type name,
   * record[1] the short host name, and the rest depends on the type.
   * The ANY entry's address is given as the four bytes socket.inet_aton
   * makes of it.
   */
  datatype Record =
    | ItemsRecord(rtype: string, shortName: seq<byte>, items: seq<seq<byte>>, count: nat)
    | SignatureRecord(rtype: string, shortName: seq<byte>, items: seq<seq<byte>>, count: nat, origin: seq<byte>)
    | HostRecord(rtype: string, shortName: seq<byte>, host: seq<byte>)
    | AnyRecord(rtype: string, shortName: seq<byte>, host: seq<byte>, address: seq<byte>)
    | SoaRecord(rtype: string, shortName: seq<byte>, mname: seq<byte>, rname: seq<byte>,
                serial: int, refresh: int, retry: int, expire: int, minimum: int)

  /** record[2][i] exists for every i < record[3]. */
  predicate HasItems(record: Record)
  {
    (record.ItemsRecord? || record.SignatureRecord?) && record.count <= |record.items|
  }

  // ---- A (type 1) and AAAA (type 28, RFC 3596): fixed RDLENGTH, the item as it is ----

  function ARecords(items: seq<seq<byte>>, count: nat): (rs: seq<ResourceRecord>)
    requires count <= |items|
    ensures |rs| == count && AllPackable(rs)
  {
    seq(count, i requires 0 <= i < count => ResourceRecord(1, 1, 5, 4, items[i]))
  }

  method BuildRecordA(record: Record) returns (b: Built)
    requires HasItems(record)
    ensures b == Answers(ARecords(record.items, record.count))
  {
    ghost var rs := ARecords(record.items, record.count);
    var answers := [];
    for i := 0 to record.count
      invariant AllPackable(rs[..i]) && answers == WireAll(rs[..i])
    {
      WireAllPrefix(rs, i);
      answers := answers + Wire(ResourceRecord(1, 1, 5, 4, record.items[i]));
    }
    assert rs[..record.count] == rs;
    b := Built(record.count, answers, 0, []);
  }

  function AaaaRecords(items: seq<seq<byte>>, count: nat): (rs: seq<ResourceRecord>)
    requires count <= |items|
    ensures |rs| == count && AllPackable(rs)
  {
    seq(count, i requires 0 <= i < count => ResourceRecord(28, 1, 5, 16, items[i]))
  }

  method BuildRecordAaaa(record: Record) returns (b: Built)
    requires HasItems(record)
    ensures b == Answers(AaaaRecords(record.items, record.count))
  {
    ghost var rs := AaaaRecords(record.items, record.count);
    var answers := [];
    for i := 0 to record.count
      invariant AllPackable(rs[..i]) && answers == WireAll(rs[..i])
    {
      WireAllPrefix(rs, i);
      answers := answers + Wire(ResourceRecord(28, 1, 5, 16, record.items[i]));
    }
    assert rs[..record.count] == rs;
    b := Built(record.count, answers, 0, []);
  }

  // ---- CNAME (5), MX (15) and SRV (33, RFC 2782): the item as a wire name ----

  /** Each of the first `count` items encodes, and its encoding plus `extra` bytes fits RDLENGTH. */
  predicate NamesFit(items: seq<seq<byte>>, count: nat, extra: nat)
  {
    count <= |items| && forall i :: 0 <= i < count ==> Encodable(items[i]) && IsU16(|EncodeName(items[i])| + extra)
  }

  function CnameRecords(items: seq<seq<byte>>, count: nat): (rs: seq<ResourceRecord>)
    requires NamesFit(items, count, 0)
    ensures |rs| == count && AllPackable(rs)
  {
    seq(count, i requires 0 <= i < count => ResourceRecord(5, 1, 5, |EncodeName(items[i])|, EncodeName(items[i])))
  }

  method BuildRecordCname(record: Record) returns (b: Built)
    requires record.ItemsRecord? && NamesFit(record.items, record.count, 0)
    ensures b == Answers(CnameRecords(record.items, record.count))
  {
    ghost var rs := CnameRecords(record.items, record.count);
    var answers := [];
    for i := 0 to record.count
      invariant AllPackable(rs[..i]) && answers == WireAll(rs[..i])
    {
      WireAllPrefix(rs, i);
      var compressHostname := HostnameToHostnamebin(record.items[i]);
      answers := answers + Wire(ResourceRecord(5, 1, 5, |compressHostname|, compressHostname));
    }
    assert rs[..record.count] == rs;
    b := Built(record.count, answers, 0, []);
  }

  /** Answer i carries preference 10*i+10; struct.pack(">H") takes it for the first 6553 answers. */
  function MxRecords(items: seq<seq<byte>>, count: nat): (rs: seq<ResourceRecord>)
    requires NamesFit(items, count, 2) && count <= 6553
    ensures |rs| == count && AllPackable(rs)
  {
    seq(count, i requires 0 <= i < count =>
      ResourceRecord(15, 1, 5, |EncodeName(items[i])| + 2, PackU16(10 * i + 10) + EncodeName(items[i])))
  }

  method BuildRecordMx(record: Record) returns (b: Built)
    requires record.ItemsRecord? && NamesFit(record.items, record.count, 2) && record.count <= 6553
    ensures b == Answers(MxRecords(record.items, record.count))
  {
    ghost var rs := MxRecords(record.items, record.count);
    var answers := [];
    for i := 0 to record.count
      invariant AllPackable(rs[..i]) && answers == WireAll(rs[..i])
    {
      WireAllPrefix(rs, i);
      var compressHostname := HostnameToHostnamebin(record.items[i]);
      answers := answers + Wire(ResourceRecord(15, 1, 5, |compressHostname| + 2, PackU16(10 * i + 10) + compressHostname));
    }
    assert rs[..record.count] == rs;
    b := Built(record.count, answers, 0, []);
  }

  /** Answer i carries priority 10*i+10, weight 20*i+10 and port 1337; the weight fits ">H" for the first 3277 answers. */
  function SrvRecords(items: seq<seq<byte>>, count: nat): (rs: seq<ResourceRecord>)
    requires NamesFit(items, count, 6) && count <= 3277
    ensures |rs| == count && AllPackable(rs)
  {
    seq(count, i requires 0 <= i < count =>
      ResourceRecord(33, 1, 5, |EncodeName(items[i])| + 6,
        PackU16(10 * i + 10) + PackU16(20 * i + 10) + PackU16(1337) + EncodeName(items[i])))
  }

  method BuildRecordSrv(record: Record) returns (b: Built)
    requires record.ItemsRecord? && NamesFit(record.items, record.count, 6) && record.count <= 3277
    ensures b == Answers(SrvRecords(record.items, record.count))
  {
    ghost var rs := SrvRecords(record.items, record.count);
    var answers := [];
    for i := 0 to record.count
      invariant AllPackable(rs[..i]) && answers == WireAll(rs[..i])
    {
      WireAllPrefix(rs, i);
      var compressHostname := HostnameToHostnamebin(record.items[i]);
      answers := answers + Wire(ResourceRecord(33, 1, 5, |compressHostname| + 6,
        PackU16(10 * i + 10) + PackU16(20 * i + 10) + PackU16(1337) + compressHostname));
    }
    assert rs[..record.count] == rs;
    b := Built(record.count, answers, 0, []);
  }

  // ---- DNSKEY (48, section 2.1 of RFC 4034) and RRSIG (46, section 3.1 of RFC 4034) ----

  /** Each of the first `count` items plus `extra` bytes fits RDLENGTH. */
  predicate ItemsFit(items: seq<seq<byte>>, count: nat, extra: nat)
  {
    count <= |items| && forall i :: 0 <= i < count ==> IsU16(|items[i]| + extra)
  }

  /** Flags 0x0100 (zone key), protocol 3, algorithm 8, then the key. */
  function DnskeyRecords(items: seq<seq<byte>>, count: nat): (rs: seq<ResourceRecord>)
    requires ItemsFit(items, count, 4)
    ensures |rs| == count && AllPackable(rs)
  {
    seq(count, i requires 0 <= i < count =>
      ResourceRecord(48, 1, 5, |items[i]| + 4, PackU16(0x0100) + [3, 8] + items[i]))
  }

  method BuildRecordDnskey(record: Record) returns (b: Built)
    requires record.ItemsRecord? && ItemsFit(record.items, record.count, 4)
    ensures b == Answers(DnskeyRecords(record.items, record.count))
  {
    ghost var rs := DnskeyRecords(record.items, record.count);
    var answers := [];
    for i := 0 to record.count
      invariant AllPackable(rs[..i]) && answers == WireAll(rs[..i])
    {
      WireAllPrefix(rs, i);
      answers := answers + Wire(ResourceRecord(48, 1, 5, |record.items[i]| + 4, PackU16(0x0100) + [3, 8] + record.items[i]));
    }
    assert rs[..record.count] == rs;
    b := Built(record.count, answers, 0, []);
  }

  /** The RRSIG answers take the clock reading `now`; both time stamps must fit ">I". */
  predicate SignatureFits(record: Record, now: int)
  {
    record.SignatureRecord? && Encodable(record.origin) && 0 <= now && IsU32(now + 3600 * 36)
    && ItemsFit(record.items, record.count, |EncodeName(record.origin)| + 18)
  }

  /**
   * Type covered 16 (TXT), algorithm 10, 2 labels, original TTL 5,
   * expiration now+36h, inception now+12h, key tag 31005, then the
   * signer's name (record[4]) and the signature item.
   */
  function RrsigRecords(record: Record, now: int): (rs: seq<ResourceRecord>)
    requires SignatureFits(record, now)
    ensures |rs| == record.count && AllPackable(rs)
  {
    var signer := EncodeName(record.origin);
    seq(record.count, i requires 0 <= i < record.count =>
      ResourceRecord(46, 1, 5, |signer + record.items[i]| + 18,
        PackU16(16) + [10, 2] + PackU32(5) + PackU32(now + 3600 * 36) + PackU32(now + 3600 * 12)
        + PackU16(31005) + signer + record.items[i]))
  }

  method BuildRecordRrsig(record: Record, now: int) returns (b: Built)
    requires SignatureFits(record, now)
    ensures b == Answers(RrsigRecords(record, now))
  {
    ghost var rs := RrsigRecords(record, now);
    var answers := [];
    for i := 0 to record.count
      invariant AllPackable(rs[..i]) && answers == WireAll(rs[..i])
    {
      WireAllPrefix(rs, i);
      var compressHostname := HostnameToHostnamebin(record.origin);
      answers := answers + Wire(ResourceRecord(46, 1, 5, |compressHostname + record.items[i]| + 18,
        PackU16(16) + [10, 2] + PackU32(5) + PackU32(now + 3600 * 36) + PackU32(now + 3600 * 12)
        + PackU16(31005) + compressHostname + record.items[i]));
    }
    assert rs[..record.count] == rs;
    b := Built(record.count, answers, 0, []);
  }

  // ---- NULL (10), PRIVATE (65399) and TXT (16): TTL 0 ----

  function NullRecords(items: seq<seq<byte>>, count: nat): (rs: seq<ResourceRecord>)
    requires ItemsFit(items, count, 0)
    ensures |rs| == count && AllPackable(rs)
  {
    seq(count, i requires 0 <= i < count => ResourceRecord(10, 1, 0, |items[i]|, items[i]))
  }

  method BuildRecordNull(record: Record) returns (b: Built)
    requires record.ItemsRecord? && ItemsFit(record.items, record.count, 0)
    ensures b == Answers(NullRecords(record.items, record.count))
  {
    ghost var rs := NullRecords(record.items, record.count);
    var answers := [];
    for i := 0 to record.count
      invariant AllPackable(rs[..i]) && answers == WireAll(rs[..i])
    {
      WireAllPrefix(rs, i);
      answers := answers + Wire(ResourceRecord(10, 1, 0, |record.items[i]|, record.items[i]));
    }
    assert rs[..record.count] == rs;
    b := Built(record.count, answers, 0, []);
  }

  function PrivateRecords(items: seq<seq<byte>>, count: nat): (rs: seq<ResourceRecord>)
    requires ItemsFit(items, count, 0)
    ensures |rs| == count && AllPackable(rs)
  {
    seq(count, i requires 0 <= i < count => ResourceRecord(65399, 1, 0, |items[i]|, items[i]))
  }

  method BuildRecordPrivate(record: Record) returns (b: Built)
    requires record.ItemsRecord? && ItemsFit(record.items, record.count, 0)
    ensures b == Answers(PrivateRecords(record.items, record.count))
  {
    ghost var rs := PrivateRecords(record.items, record.count);
    var answers := [];
    for i := 0 to record.count
      invariant AllPackable(rs[..i]) && answers == WireAll(rs[..i])
    {
      WireAllPrefix(rs, i);
      answers := answers + Wire(ResourceRecord(65399, 1, 0, |record.items[i]|, record.items[i]));
    }
    assert rs[..record.count] == rs;
    b := Built(record.count, answers, 0, []);
  }

  /** Each of the first `count` items fits the one-byte length of a character-string (section 3.3 of RFC 1035). */
  predicate TextsFit(items: seq<seq<byte>>, count: nat)
  {
    count <= |items| && forall i :: 0 <= i < count ==> IsU8(|items[i]|)
  }

  function TxtRecords(items: seq<seq<byte>>, count: nat): (rs: seq<ResourceRecord>)
    requires TextsFit(items, count)
    ensures |rs| == count && AllPackable(rs)
  {
    seq(count, i requires 0 <= i < count => ResourceRecord(16, 1, 0, |items[i]| + 1, [|items[i]| as byte] + items[i]))
  }

  method BuildRecordTxt(record: Record) returns (b: Built)
    requires record.ItemsRecord? && TextsFit(record.items, record.count)
    ensures b == Answers(TxtRecords(record.items, record.count))
  {
    ghost var rs := TxtRecords(record.items, record.count);
    var answers := [];
    for i := 0 to record.count
      invariant AllPackable(rs[..i]) && answers == WireAll(rs[..i])
    {
      WireAllPrefix(rs, i);
      var len: byte := |record.items[i]|;
      answers := answers + Wire(ResourceRecord(16, 1, 0, |record.items[i]| + 1, [len] + record.items[i]));
    }
    assert rs[..record.count] == rs;
    b := Built(record.count, answers, 0, []);
  }

  // ---- NS (2), SOA (6) and ANY (255): a fixed number of answers ----

  /** The host encodes and its encoding fits RDLENGTH. */
  predicate NameFits(h: seq<byte>, extra: nat)
  {
    Encodable(h) && IsU16(|EncodeName(h)| + extra)
  }

  function NsRecords(record: Record): (rs: seq<ResourceRecord>)
    requires record.HostRecord? && NameFits(record.host, 0)
    ensures |rs| == 1 && AllPackable(rs)
  {
    [ResourceRecord(2, 1, 3600, |EncodeName(record.host)|, EncodeName(record.host))]
  }

  /** build_record_NS: one answer with TTL 3600 whose data is the host's wire name. */
  function BuildRecordNs(record: Record): (b: Built)
    requires record.HostRecord? && NameFits(record.host, 0)
    ensures b == Answers(NsRecords(record)) && b.answerNum == 1
    ensures b.answers[12..] == EncodeName(record.host)
  {
    WireAllOne(NsRecords(record)[0]);
    Answers(NsRecords(record))
  }

  /** struct.pack(">IIIII", ...) accepts the five SOA counters. */
  predicate SoaFits(record: Record)
  {
    record.SoaRecord? && Encodable(record.mname) && Encodable(record.rname)
    && IsU32(record.serial) && IsU32(record.refresh) && IsU32(record.retry) && IsU32(record.expire) && IsU32(record.minimum)
    && IsU16(|EncodeName(record.mname)| + |EncodeName(record.rname)| + 20)
  }

  /** MNAME, RNAME, then SERIAL, REFRESH, RETRY, EXPIRE and MINIMUM (section 3.3.13 of RFC 1035). */
  function SoaData(record: Record): (data: seq<byte>)
    requires SoaFits(record)
    ensures |data| == |EncodeName(record.mname)| + |EncodeName(record.rname)| + 20
  {
    EncodeName(record.mname) + EncodeName(record.rname) + PackU32(record.serial) + PackU32(record.refresh)
    + PackU32(record.retry) + PackU32(record.expire) + PackU32(record.minimum)
  }

  function SoaRecords(record: Record): (rs: seq<ResourceRecord>)
    requires SoaFits(record)
    ensures |rs| == 1 && AllPackable(rs)
  {
    [ResourceRecord(6, 1, 5, |SoaData(record)|, SoaData(record))]
  }

  /** build_record_SOA: one answer whose data is the SOA data. */
  function BuildRecordSoa(record: Record): (b: Built)
    requires SoaFits(record)
    ensures b == Answers(SoaRecords(record)) && b.answerNum == 1
    ensures b.answers[12..] == SoaData(record)
  {
    WireAllOne(SoaRecords(record)[0]);
    Answers(SoaRecords(record))
  }

  /** The CNAME answer for the host, then the A answer for the address. */
  function AnyRecords(record: Record): (rs: seq<ResourceRecord>)
    requires record.AnyRecord? && NameFits(record.host, 0)
    ensures |rs| == 2 && AllPackable(rs)
  {
    [ResourceRecord(5, 1, 5, |EncodeName(record.host)|, EncodeName(record.host)),
     ResourceRecord(1, 1, 5, 4, record.address)]
  }

  /** build_record_ANY: two answers, the CNAME answer first. */
  function BuildRecordAny(record: Record): (b: Built)
    requires record.AnyRecord? && NameFits(record.host, 0)
    ensures b == Answers(AnyRecords(record)) && b.answerNum == 2
  {
    Answers(AnyRecords(record))
  }

  // ---- Sizes of the answers the builders lay out ----

  /** The total length of the first `count` items. */
  function ItemBytes(items: seq<seq<byte>>, count: nat): nat
    requires count <= |items|
    decreases count
  {
    if count == 0 then 0 else ItemBytes(items, count - 1) + |items[count - 1]|
  }

  /** The total length of the answers' data. */
  function DataBytes(rs: seq<ResourceRecord>): nat
    decreases |rs|
  {
    if |rs| == 0 then 0 else DataBytes(rs[..|rs| - 1]) + |rs[|rs| - 1].rdata|
  }

  /** Every answer is twelve bytes of fixed fields and then its data. */
  lemma {:induction false} WireAllLength(rs: seq<ResourceRecord>)
    requires AllPackable(rs)
    ensures |WireAll(rs)| == 12 * |rs| + DataBytes(rs)
    decreases |rs|
  {
    if |rs| > 0 {
      WireAllPrefix(rs, |rs| - 1);
      assert rs[..|rs| - 1 + 1] == rs;
      WireAllLength(rs[..|rs| - 1]);
    }
  }

  /** Answers whose data is item i plus `extra` bytes hold the items' bytes and `extra` per answer. */
  lemma {:induction false} DataBytesOfItems(rs: seq<ResourceRecord>, items: seq<seq<byte>>, extra: nat)
    requires |rs| <= |items| && forall i :: 0 <= i < |rs| ==> |rs[i].rdata| == |items[i]| + extra
    ensures DataBytes(rs) == ItemBytes(items, |rs|) + extra * |rs|
    decreases |rs|
  {
    if |rs| > 0 {
      var init := rs[..|rs| - 1];
      assert forall i :: 0 <= i < |init| ==> init[i] == rs[i];
      DataBytesOfItems(init, items, extra);
    }
  }

  /** build_record_A with four-byte addresses: sixteen bytes per answer. */
  lemma AAnswersLength(items: seq<seq<byte>>, count: nat)
    requires count <= |items| && forall i :: 0 <= i < count ==> |items[i]| == 4
    ensures |WireAll(ARecords(items, count))| == 16 * count
  {
    WireAllUniform(ARecords(items, count), 16);
  }

  /** build_record_AAAA with sixteen-byte addresses: 28 bytes per answer. */
  lemma AaaaAnswersLength(items: seq<seq<byte>>, count: nat)
    requires count <= |items| && forall i :: 0 <= i < count ==> |items[i]| == 16
    ensures |WireAll(AaaaRecords(items, count))| == 28 * count
  {
    WireAllUniform(AaaaRecords(items, count), 28);
  }

  /** build_record_NULL: twelve bytes per answer and then the item. */
  lemma NullAnswersLength(items: seq<seq<byte>>, count: nat)
    requires ItemsFit(items, count, 0)
    ensures |WireAll(NullRecords(items, count))| == 12 * count + ItemBytes(items, count)
  {
    WireAllLength(NullRecords(items, count));
    DataBytesOfItems(NullRecords(items, count), items, 0);
  }

  /** build_record_PRIVATE: twelve bytes per answer and then the item. */
  lemma PrivateAnswersLength(items: seq<seq<byte>>, count: nat)
    requires ItemsFit(items, count, 0)
    ensures |WireAll(PrivateRecords(items, count))| == 12 * count + ItemBytes(items, count)
  {
    WireAllLength(PrivateRecords(items, count));
    DataBytesOfItems(PrivateRecords(items, count), items, 0);
  }

  /** build_record_TXT: thirteen bytes per answer (the length byte included) and then the item. */
  lemma TxtAnswersLength(items: seq<seq<byte>>, count: nat)
    requires TextsFit(items, count)
    ensures |WireAll(TxtRecords(items, count))| == 13 * count + ItemBytes(items, count)
  {
    WireAllLength(TxtRecords(items, count));
    DataBytesOfItems(TxtRecords(items, count), items, 1);
  }
}
