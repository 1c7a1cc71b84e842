// The message builders of dns_proto.py: build_query lays out a query
// (header, one question and an optional EDNS OPT record), build_answer a
// response (header, the echoed question, the answers of the record's
// type and its additional records). The header is the twelve bytes of
// section 4.1.1 of RFC 1035.

module Messages {
  import opened Bytes
  import opened Names
  import opened Builders
  import opened Registry

  /** struct.pack(">HHHHHH", id, flags, qdcount, ancount, nscount, arcount). */
  function Header(tid: int, flags: int, qdcount: int, ancount: int, nscount: int, arcount: int): (h: seq<byte>)
    requires IsU16(tid) && IsU16(flags) && IsU16(qdcount) && IsU16(ancount) && IsU16(nscount) && IsU16(arcount)
    ensures |h| == 12
    ensures U16At(h, 0) == tid && U16At(h, 2) == flags && U16At(h, 4) == qdcount
    ensures U16At(h, 6) == ancount && U16At(h, 8) == nscount && U16At(h, 10) == arcount
  {
    var h := PackU16(tid) + PackU16(flags) + PackU16(qdcount) + PackU16(ancount) + PackU16(nscount) + PackU16(arcount);
    U16AtPacked(h, 0, tid);
    U16AtPacked(h, 2, flags);
    U16AtPacked(h, 4, qdcount);
    U16AtPacked(h, 6, ancount);
    U16AtPacked(h, 8, nscount);
    U16AtPacked(h, 10, arcount);
    h
  }

  /** Flags of a query: a standard query with recursion desired. */
  const QUERY_FLAGS: int := 0x0100
  /** Flags of an answer: a response, authoritative, recursion desired, rcode 0. */
  const ANSWER_FLAGS: int := 0x8500
  /** Flags of an answer for a missing record: as ANSWER_FLAGS with rcode 3 (name error). */
  const NO_RECORD_FLAGS: int := 0x8503

  /**
   * build_record_OPT: the EDNS pseudo-record of section 6.1.2 of RFC 6891,
   * with the root name, type 41 (OPT), a 4096-byte UDP payload size, no
   * extended rcode, version 0, the DO bit of section 3 of RFC 3225 set,
   * and no options.
   */
  function BuildRecordOpt(): (r: seq<byte>)
    ensures r == [0x00, 0x00, 41, 0x10, 0x00, 0x00, 0x00, 0x80, 0x00, 0x00, 0x00]
  {
    [0x00] + PackU16(41) + PackU16(4096) + [0x00, 0x00] + PackU16(0x8000) + PackU16(0)
  }

  /** The question section of a query for `qname`: the wire name, the type and class 1 (IN). */
  function QuestionWire(qname: seq<byte>, qtype: int): (r: seq<byte>)
    requires Encodable(qname) && IsU16(qtype)
    ensures |r| == |EncodeName(qname)| + 4
  {
    EncodeName(qname) + PackU16(qtype) + PackU16(1)
  }

  /** The value build_query returns for the query name `qname` (data + hostname) and the given edns setting. */
  function QueryMessage(tid: int, qname: seq<byte>, rrType: int, edns: int): (msg: seq<byte>)
    requires IsU16(tid) && IsU16(rrType) && IsU16(edns) && Encodable(qname)
    ensures |msg| == 12 + |EncodeName(qname)| + 4 + (if edns != 0 then 11 else 0)
  {
    Header(tid, QUERY_FLAGS, 1, 0, 0, edns) + QuestionWire(qname, rrType) + (if edns != 0 then BuildRecordOpt() else [])
  }

  /**
   * The parts of a query: the header carries the query flags, one question
   * and the edns value as the additional count; the question follows the
   * header; with edns on, the query ends with the OPT record, and with
   * edns off nothing follows the question.
   */
  lemma QueryMessageParts(tid: int, qname: seq<byte>, rrType: int, edns: int)
    requires IsU16(tid) && IsU16(rrType) && IsU16(edns) && Encodable(qname)
    ensures var msg := QueryMessage(tid, qname, rrType, edns);
      var q := QuestionWire(qname, rrType);
      && U16At(msg, 0) == tid && U16At(msg, 2) == QUERY_FLAGS && U16At(msg, 4) == 1
      && U16At(msg, 6) == 0 && U16At(msg, 8) == 0 && U16At(msg, 10) == edns
      && msg[12..12 + |q|] == q
      && (edns != 0 ==> msg[|msg| - 11..] == BuildRecordOpt())
      && (edns == 0 ==> |msg| == 12 + |q|)
  {
    var header := Header(tid, QUERY_FLAGS, 1, 0, 0, edns);
    var q := QuestionWire(qname, rrType);
    var opt := if edns != 0 then BuildRecordOpt() else [];
    var msg := header + q + opt;
    assert msg == QueryMessage(tid, qname, rrType, edns);
    assert msg[..12] == header;
    assert msg[12..12 + |q|] == q;
    assert msg[|msg| - |opt|..] == opt;
    forall k | 0 <= k <= 10
      ensures U16At(msg, k) == U16At(header, k)
    {
      assert msg[k] == header[k] && msg[k + 1] == header[k + 1];
    }
  }

  /** Regrouping build_query's concatenation around the question. */
  lemma QueryRegroup(header: seq<byte>, name: seq<byte>, fields: seq<byte>, additional: seq<byte>)
    ensures header + name + fields + additional == header + (name + fields) + additional
  {
  }

  /** DNS_Proto: the only state is the EDNS setting that build_query reads. */
  class DnsProto {
    var edns: int

    constructor()
      ensures edns == 0
    {
      edns := 0;
    }

    /** set_edns. */
    method SetEdns(value: int)
      modifies this
      ensures edns == value
    {
      edns := value;
    }

    /**
     * build_query: the header carries the edns setting as its additional
     * count, and a non-zero setting appends one OPT record.
     */
    method BuildQuery(transactionId: int, data: seq<byte>, hostname: seq<byte>, rrType: int) returns (msg: seq<byte>)
      requires IsU16(transactionId) && IsU16(edns) && IsU16(rrType) && Encodable(data + hostname)
      ensures msg == QueryMessage(transactionId, data + hostname, rrType, edns)
    {
      var header := Header(transactionId, QUERY_FLAGS, 1, 0, 0, edns);
      var additionalRecords: seq<byte> := [];
      if edns != 0 {
        additionalRecords := BuildRecordOpt();
      }
      var qhostname := HostnameToHostnamebin(data + hostname);
      var fields := PackU16(rrType) + PackU16(1);
      QueryRegroup(header, qhostname, fields, additionalRecords);
      assert qhostname + fields == QuestionWire(data + hostname, rrType);
      msg := header + qhostname + fields + additionalRecords;
    }
  }

  /** What the builder of each type requires of the zone entry for struct.pack and indexing not to raise. */
  predicate BuilderAccepts(builder: Builder, record: Record, now: int)
  {
    match builder
    case BuildA => HasItems(record)
    case BuildAaaa => HasItems(record)
    case BuildNs => record.HostRecord? && NameFits(record.host, 0)
    case BuildCname => record.ItemsRecord? && NamesFit(record.items, record.count, 0)
    case BuildSoa => SoaFits(record)
    case BuildNull => record.ItemsRecord? && ItemsFit(record.items, record.count, 0)
    case BuildMx => record.ItemsRecord? && NamesFit(record.items, record.count, 2) && record.count <= 6553
    case BuildTxt => record.ItemsRecord? && TextsFit(record.items, record.count)
    case BuildSrv => record.ItemsRecord? && NamesFit(record.items, record.count, 6) && record.count <= 3277
    case BuildRrsig => SignatureFits(record, now)
    case BuildDnskey => record.ItemsRecord? && ItemsFit(record.items, record.count, 4)
    case BuildAny => record.AnyRecord? && NameFits(record.host, 0)
    case BuildPrivate => record.ItemsRecord? && ItemsFit(record.items, record.count, 0)
  }

  /** The answers the builder of each type lays out for the zone entry. */
  function Records(builder: Builder, record: Record, now: int): (rs: seq<ResourceRecord>)
    requires BuilderAccepts(builder, record, now)
    ensures AllPackable(rs)
  {
    match builder
    case BuildA => ARecords(record.items, record.count)
    case BuildAaaa => AaaaRecords(record.items, record.count)
    case BuildNs => NsRecords(record)
    case BuildCname => CnameRecords(record.items, record.count)
    case BuildSoa => SoaRecords(record)
    case BuildNull => NullRecords(record.items, record.count)
    case BuildMx => MxRecords(record.items, record.count)
    case BuildTxt => TxtRecords(record.items, record.count)
    case BuildSrv => SrvRecords(record.items, record.count)
    case BuildRrsig => RrsigRecords(record, now)
    case BuildDnskey => DnskeyRecords(record.items, record.count)
    case BuildAny => AnyRecords(record)
    case BuildPrivate => PrivateRecords(record.items, record.count)
  }

  /** RRtype[1](record): the call build_answer makes through the registry entry. */
  method BuildRecord(builder: Builder, record: Record, now: int) returns (b: Built)
    requires BuilderAccepts(builder, record, now)
    ensures b == Answers(Records(builder, record, now))
  {
    match builder
    case BuildA => b := BuildRecordA(record);
    case BuildAaaa => b := BuildRecordAaaa(record);
    case BuildNs => b := BuildRecordNs(record);
    case BuildCname => b := BuildRecordCname(record);
    case BuildSoa => b := BuildRecordSoa(record);
    case BuildNull => b := BuildRecordNull(record);
    case BuildMx => b := BuildRecordMx(record);
    case BuildTxt => b := BuildRecordTxt(record);
    case BuildSrv => b := BuildRecordSrv(record);
    case BuildRrsig => b := BuildRecordRrsig(record, now);
    case BuildDnskey => b := BuildRecordDnskey(record);
    case BuildAny => b := BuildRecordAny(record);
    case BuildPrivate => b := BuildRecordPrivate(record);
  }

  /**
   * What build_answer needs not to raise: a record type the registry knows
   * (reverse_RR_type returns 0 otherwise, and indexing it raises), an entry
   * its builder accepts, and an answer count that fits the header.
   */
  predicate AnswerBuildable(record: Option<Record>, now: int)
  {
    match record
    case None => true
    case Some(rec) =>
      match ReverseRRType(rec.rtype)
      case None => false
      case Some(rr) =>
        rr.builder.None? ||
        (BuilderAccepts(rr.builder.value, rec, now) && IsU16(|Records(rr.builder.value, rec, now)|))
  }

  /** The value build_answer returns. */
  function AnswerMessage(tid: int, record: Option<Record>, origQuestion: seq<byte>, now: int): (msg: seq<byte>)
    requires IsU16(tid) && AnswerBuildable(record, now)
  {
    match record
    case None => Header(tid, NO_RECORD_FLAGS, 1, 0, 0, 0) + origQuestion
    case Some(rec) =>
      var builder := ReverseRRType(rec.rtype).value.builder;
      if builder.None? then Header(tid, ANSWER_FLAGS, 1, 0, 0, 0) + origQuestion
      else
        var rs := Records(builder.value, rec, now);
        Header(tid, ANSWER_FLAGS, 1, |rs|, 0, 0) + origQuestion + WireAll(rs)
  }

  /**
   * build_answer: flags 0x8503 and no answers for a missing record; flags
   * 0x8500 otherwise, with the answers of the type's builder, or none
   * when the type has no builder. The builders return no additional
   * records.
   */
  method BuildAnswer(transactionId: int, record: Option<Record>, origQuestion: seq<byte>, now: int) returns (msg: seq<byte>)
    requires IsU16(transactionId) && AnswerBuildable(record, now)
    ensures msg == AnswerMessage(transactionId, record, origQuestion, now)
  {
    var flag: int;
    var b: Built;
    if record.None? {
      flag := NO_RECORD_FLAGS;
      b := Built(0, [], 0, []);
    } else {
      flag := ANSWER_FLAGS;
      var rrType := ReverseRRType(record.value.rtype).value;
      if rrType.builder.None? {
        b := Built(0, [], 0, []);
      } else {
        b := BuildRecord(rrType.builder.value, record.value, now);
      }
    }
    var dnsHeader := Header(transactionId, flag, 1, b.answerNum, 0, b.additionalNum);
    msg := dnsHeader + origQuestion + b.answers + b.additional;
  }
}
