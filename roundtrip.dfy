// What the parsers of dns_proto.py recover from the messages its builders
// lay out: a query's question, and an answer's question and answers. The
// answers' names are the 0xC00C pointer, which hostnamebin_to_hostname
// recognises (any length byte above 63) but does not follow, so they
// decode to the empty name.

module RoundTrip {
  import opened Bytes
  import opened Names
  import opened Builders
  import opened Registry
  import opened Parser
  import opened Messages
  import opened Validator

  /** What parse_answers reads back for one answer the builders laid out. */
  function ParsedAnswer(rr: ResourceRecord): Answer
  {
    Answer([], rr.rtype, rr.rclass, rr.ttl, rr.rdlength, rr.rdata)
  }

  function ParsedAnswers(rs: seq<ResourceRecord>): (r: seq<Answer>)
    ensures |r| == |rs|
  {
    seq(|rs|, i requires 0 <= i < |rs| => ParsedAnswer(rs[i]))
  }

  /** Every answer's RDLENGTH is the length of its data, so a reader lands on the next answer. */
  predicate Framed(rs: seq<ResourceRecord>)
  {
    forall i :: 0 <= i < |rs| ==> rs[i].rdlength == |rs[i].rdata|
  }

  /** `msg` holds `part` from offset i on. */
  predicate HoldsAt(msg: seq<byte>, i: nat, part: seq<byte>)
  {
    i + |part| <= |msg| && msg[i..i + |part|] == part
  }

  /** A sub-range of what `msg` holds at i is held at the shifted offset. */
  lemma HoldsWithin(msg: seq<byte>, i: nat, part: seq<byte>, lo: nat, hi: nat)
    requires HoldsAt(msg, i, part) && lo <= hi <= |part|
    ensures msg[i + lo..i + hi] == part[lo..hi]
  {
    forall k | 0 <= k < hi - lo
      ensures msg[i + lo..i + hi][k] == part[lo..hi][k]
    {
      assert msg[i + lo + k] == msg[i..i + |part|][lo + k];
    }
  }

  /** What `msg` holds at i, when it is three parts, it holds part by part. */
  lemma HoldsParts(msg: seq<byte>, i: nat, a: seq<byte>, b: seq<byte>, c: seq<byte>)
    requires HoldsAt(msg, i, a + b + c)
    ensures HoldsAt(msg, i, a) && HoldsAt(msg, i + |a|, b) && HoldsAt(msg, i + |a| + |b|, c)
  {
    var w := a + b + c;
    HoldsWithin(msg, i, w, 0, |a|);
    assert w[0..|a|] == a;
    HoldsWithin(msg, i, w, |a|, |a| + |b|);
    assert w[|a|..|a| + |b|] == b;
    HoldsWithin(msg, i, w, |a| + |b|, |w|);
    assert w[|a| + |b|..|w|] == c;
  }

  /** One answer as build_record_* lays it out is read back field by field. */
  lemma ReadWire(msg: seq<byte>, i: nat, rr: ResourceRecord)
    requires Packable(rr) && rr.rdlength == |rr.rdata| && HoldsAt(msg, i, Wire(rr))
    ensures ReadAnswer(msg, i) == AnswerRead(ParsedAnswer(rr), i + |Wire(rr)|)
  {
    var w := Wire(rr);
    WireFields(rr);
    assert msg[i] == w[0];
    assert DecodeName(Drop(msg, i)) == Decoded(2, []);
    HoldsWithin(msg, i, w, 2, 4);
    U16AtPacked(msg, i + 2, rr.rtype);
    HoldsWithin(msg, i, w, 4, 6);
    U16AtPacked(msg, i + 4, rr.rclass);
    HoldsWithin(msg, i, w, 6, 10);
    U32AtPacked(msg, i + 6, rr.ttl);
    HoldsWithin(msg, i, w, 10, 12);
    U16AtPacked(msg, i + 10, rr.rdlength);
    HoldsWithin(msg, i, w, 12, |w|);
  }

  /** One turn of parse_answers that reads answer `a`, followed by the k - 1 remaining answers. */
  lemma AnswersAfterRead(msg: seq<byte>, i: nat, k: nat, a: Answer, next: nat, more: seq<Answer>, length: nat)
    requires k > 0 && ReadAnswer(msg, i) == AnswerRead(a, next)
    requires AnswersFrom(msg, next, k - 1) == AnswersOk(more, length)
    ensures AnswersFrom(msg, i, k) == AnswersOk([a] + more, length)
  {
    AnswersFromStep(msg, i, k);
  }

  /** One turn of parse_answers over an answer build_record_* laid out, followed by the k - 1 remaining answers. */
  lemma AnswersAfterWire(msg: seq<byte>, i: nat, k: nat, rr: ResourceRecord, next: nat, more: seq<Answer>, length: nat)
    requires Packable(rr) && rr.rdlength == |rr.rdata| && HoldsAt(msg, i, Wire(rr)) && next == i + |Wire(rr)|
    requires k > 0 && AnswersFrom(msg, next, k - 1) == AnswersOk(more, length)
    ensures AnswersFrom(msg, i, k) == AnswersOk([ParsedAnswer(rr)] + more, length)
  {
    ReadWire(msg, i, rr);
    AnswersAfterRead(msg, i, k, ParsedAnswer(rr), next, more, length);
  }

  lemma FramedTail(rs: seq<ResourceRecord>)
    requires Framed(rs) && |rs| > 0
    ensures Framed(rs[1..])
  {
    forall k | 0 <= k < |rs[1..]|
      ensures rs[1..][k].rdlength == |rs[1..][k].rdata|
    {
      assert rs[1..][k] == rs[k + 1];
    }
  }

  /** A run of answers held at offset i is its first answer followed by the others. */
  lemma WireSplitHolds(msg: seq<byte>, i: nat, rs: seq<ResourceRecord>)
    requires AllPackable(rs) && |rs| > 0 && HoldsAt(msg, i, WireAll(rs))
    ensures AllPackable(rs[1..]) && Packable(rs[0])
    ensures HoldsAt(msg, i, Wire(rs[0]))
    ensures HoldsAt(msg, i + |Wire(rs[0])|, WireAll(rs[1..]))
    ensures |WireAll(rs)| == |Wire(rs[0])| + |WireAll(rs[1..])|
  {
    WireAllCons(rs);
    var w := Wire(rs[0]);
    var rest := WireAll(rs[1..]);
    HoldsWithin(msg, i, WireAll(rs), 0, |w|);
    assert (w + rest)[0..|w|] == w;
    HoldsWithin(msg, i, WireAll(rs), |w|, |w| + |rest|);
    assert (w + rest)[|w|..|w| + |rest|] == rest;
  }

  lemma ParsedAnswersCons(rs: seq<ResourceRecord>, t: seq<ResourceRecord>)
    requires |rs| > 0 && t == rs[1..]
    ensures ParsedAnswers(rs) == [ParsedAnswer(rs[0])] + ParsedAnswers(t)
  {
  }

  /** The answers `t` after the first answer of a framed run are a framed run held right after it. */
  lemma WireTail(msg: seq<byte>, i: nat, rs: seq<ResourceRecord>, t: seq<ResourceRecord>, j: nat)
    requires AllPackable(rs) && Framed(rs) && |rs| > 0 && HoldsAt(msg, i, WireAll(rs))
    requires t == rs[1..] && j == i + |Wire(rs[0])|
    ensures AllPackable(t) && Framed(t) && HoldsAt(msg, j, WireAll(t))
  {
    WireSplitHolds(msg, i, rs);
    FramedTail(rs);
  }

  /** The inductive step of AnswersOfWire: the first answer, then the answers `t` after it, read from offset j. */
  lemma AnswersOfWireStep(msg: seq<byte>, i: nat, rs: seq<ResourceRecord>, k: nat, t: seq<ResourceRecord>, j: nat)
    requires AllPackable(rs) && Framed(rs) && k == |rs| > 0 && HoldsAt(msg, i, WireAll(rs))
    requires t == rs[1..] && j == i + |Wire(rs[0])| && AllPackable(t)
    requires AnswersFrom(msg, j, k - 1) == AnswersOk(ParsedAnswers(t), j + |WireAll(t)|)
    ensures AnswersFrom(msg, i, k) == AnswersOk(ParsedAnswers(rs), i + |WireAll(rs)|)
  {
    WireSplitHolds(msg, i, rs);
    AnswersAfterWire(msg, i, k, rs[0], j, ParsedAnswers(t), j + |WireAll(t)|);
    ParsedAnswersCons(rs, t);
  }

  /** parse_answers reads back every answer of a framed run of k answers, and stops right after it. */
  lemma {:induction false} AnswersOfWire(msg: seq<byte>, i: nat, rs: seq<ResourceRecord>, k: nat)
    requires AllPackable(rs) && Framed(rs) && HoldsAt(msg, i, WireAll(rs)) && k == |rs|
    ensures AnswersFrom(msg, i, k) == AnswersOk(ParsedAnswers(rs), i + |WireAll(rs)|)
    decreases k
  {
    if k > 0 {
      var t := rs[1..];
      var j := i + |Wire(rs[0])|;
      WireTail(msg, i, rs, t, j);
      AnswersOfWire(msg, j, t, k - 1);
      AnswersOfWireStep(msg, i, rs, k, t, j);
    }
  }

  /** What `msg` holds at its front is followed by the rest of `msg`. */
  lemma HoldsFront(msg: seq<byte>, front: seq<byte>)
    requires HoldsAt(msg, 0, front)
    ensures msg == front + msg[|front|..]
  {
    assert msg == msg[0..|front|] + msg[|front|..];
  }

  /** The name at the front of a question build_query laid out decodes to the name with its final dot. */
  lemma QuestionNameAtFront(msg: seq<byte>, qname: seq<byte>, qtype: int)
    requires ValidHostname(qname) && IsU16(qtype)
    ensures Encodable(qname)
    ensures HoldsAt(msg, 0, QuestionWire(qname, qtype)) ==>
      DecodeName(Drop(msg, 0)) == Decoded(|EncodeName(qname)|, WithTrailingDot(qname))
  {
    DecodeEncodeName(qname, []);
    if HoldsAt(msg, 0, QuestionWire(qname, qtype)) {
      var name := EncodeName(qname);
      HoldsParts(msg, 0, name, PackU16(qtype), PackU16(1));
      HoldsFront(msg, name);
      DecodeEncodeName(qname, msg[|name|..]);
    }
  }

  /** The type and class 1 that follow a question's name are read back. */
  lemma QuestionFieldsAfterName(msg: seq<byte>, name: seq<byte>, qtype: int)
    requires IsU16(qtype) && HoldsAt(msg, 0, name + PackU16(qtype) + PackU16(1))
    ensures U16At(msg, |name|) == qtype && U16At(msg, |name| + 2) == 1
  {
    HoldsParts(msg, 0, name, PackU16(qtype), PackU16(1));
    U16AtPacked(msg, |name|, qtype);
    U16AtPacked(msg, |name| + 2, 1);
  }

  /** A question whose name decodes from `name` and whose type and class follow it is read back whole. */
  lemma ReadQuestionParts(msg: seq<byte>, name: seq<byte>, full: seq<byte>, qtype: int)
    requires |name| > 0 && |name| + 4 <= |msg|
    requires DecodeName(Drop(msg, 0)) == Decoded(|name|, full)
    requires U16At(msg, |name|) == qtype && U16At(msg, |name| + 2) == 1
    ensures ReadQuestion(msg, 0) == QuestionRead(Question(full, qtype, 1), |name| + 4)
  {
    ReadQuestionAt(msg, 0, |name|, full);
  }

  /** The question build_query lays out for a valid name is read back whole: the name with its final dot, the type and class 1. */
  lemma ReadQuestionWire(msg: seq<byte>, qname: seq<byte>, qtype: int)
    requires ValidHostname(qname) && IsU16(qtype)
    ensures Encodable(qname)
    ensures HoldsAt(msg, 0, QuestionWire(qname, qtype)) ==>
      ReadQuestion(msg, 0) == QuestionRead(Question(WithTrailingDot(qname), qtype, 1), |QuestionWire(qname, qtype)|)
  {
    QuestionNameAtFront(msg, qname, qtype);
    var q := QuestionWire(qname, qtype);
    if HoldsAt(msg, 0, q) {
      var name := EncodeName(qname);
      assert |q| == |name| + 4;
      QuestionFieldsAfterName(msg, name, qtype);
      ReadQuestionParts(msg, name, WithTrailingDot(qname), qtype);
    }
  }

  /** One turn of parse_questions that reads question `q`, followed by the k - 1 remaining questions. */
  lemma QuestionsAfterRead(msg: seq<byte>, i: nat, k: nat, q: Question, next: nat, more: seq<Question>, length: nat)
    requires k > 0 && ReadQuestion(msg, i) == QuestionRead(q, next)
    requires QuestionsFrom(msg, next, k - 1) == QuestionsOk(more, length)
    ensures QuestionsFrom(msg, i, k) == QuestionsOk([q] + more, length)
  {
    QuestionsFromStep(msg, i, k);
  }

  /** parse_questions reads back the one question of a query for a valid name. */
  lemma QuestionOfWire(msg: seq<byte>, qname: seq<byte>, qtype: int)
    requires ValidHostname(qname) && IsU16(qtype)
    ensures Encodable(qname)
    ensures HoldsAt(msg, 0, QuestionWire(qname, qtype)) ==>
      QuestionsFrom(msg, 0, 1) == QuestionsOk([Question(WithTrailingDot(qname), qtype, 1)], |QuestionWire(qname, qtype)|)
  {
    ReadQuestionWire(msg, qname, qtype);
    if HoldsAt(msg, 0, QuestionWire(qname, qtype)) {
      var n := |QuestionWire(qname, qtype)|;
      var q := Question(WithTrailingDot(qname), qtype, 1);
      assert QuestionsFrom(msg, n, 0) == QuestionsOk([], n);
      QuestionsAfterRead(msg, 0, 1, q, n, [], n);
      assert [q] + [] == [q];
    }
  }

  /** The parts of a message: twelve header bytes, the question section, and whatever follows. */
  lemma MessageParts(msg: seq<byte>, header: seq<byte>, question: seq<byte>, rest: seq<byte>)
    requires msg == header + question + rest && |header| == 12
    ensures Drop(msg, 12) == question + rest
    ensures 12 + |question| <= |msg| && msg[12..12 + |question|] == question
    ensures Drop(msg, 12 + |question|) == rest
    ensures HoldsAt(question + rest, 0, question)
    ensures forall k :: 0 <= k <= 10 ==> U16At(msg, k) == U16At(header, k)
  {
    assert Drop(msg, 12) == question + rest;
    assert (question + rest)[0..|question|] == question;
    forall k | 0 <= k <= 10
      ensures U16At(msg, k) == U16At(header, k)
    {
      assert msg[k] == header[k] && msg[k + 1] == header[k + 1];
    }
  }

  /**
   * parse_dns of a message with an accepted rcode and one question: the
   * header's fields, the question read from the question section, that
   * section as it was sent, and the answers read from what follows it.
   */
  lemma ParseFramed(msg: seq<byte>, hostname: seq<byte>, header: seq<byte>, question: seq<byte>, rest: seq<byte>,
                    flags: int, nanswers: nat, q: Question, answers: Answers)
    requires msg == header + question + rest && |header| == 12
    requires U16At(header, 2) == flags && IsU16(flags) && (Rcode(flags) == 0 || Rcode(flags) == 3)
    requires U16At(header, 4) == 1 && U16At(header, 6) == nanswers
    requires QuestionsFrom(question + rest, 0, 1) == QuestionsOk([q], |question|)
    requires AnswersFrom(rest, 0, nanswers) == answers && !answers.AnswersRaise?
    ensures ParseDns(msg, hostname) == Parsed(U16At(header, 0), flags < 0x8000, q.qtype, 1, [q], question, nanswers, answers)
  {
    MessageParts(msg, header, question, rest);
    assert U16At(msg, 0) == U16At(header, 0) && U16At(msg, 2) == flags;
    assert U16At(msg, 4) == 1 && U16At(msg, 6) == nanswers;
  }

  /**
   * parse_dns of what build_query lays out for a valid name: the
   * transaction id, a query, the type, the one question with its final
   * dot, the question section as it was sent, and no answers.
   */
  lemma ParseQuery(tid: int, qname: seq<byte>, rrType: int, edns: int, hostname: seq<byte>)
    requires IsU16(tid) && IsU16(rrType) && IsU16(edns) && ValidHostname(qname)
    ensures Encodable(qname)
    ensures ParseDns(QueryMessage(tid, qname, rrType, edns), hostname)
         == Parsed(tid, true, rrType, 1, [Question(WithTrailingDot(qname), rrType, 1)], QuestionWire(qname, rrType),
                   0, AnswersOk([], 0))
  {
    QuestionOfWire([], qname, rrType);
    var header := Header(tid, QUERY_FLAGS, 1, 0, 0, edns);
    var question := QuestionWire(qname, rrType);
    var opt: seq<byte> := if edns != 0 then BuildRecordOpt() else [];
    QuestionBeforeRest(qname, rrType, opt);
    ParseFramed(QueryMessage(tid, qname, rrType, edns), hostname, header, question, opt,
                QUERY_FLAGS, 0, Question(WithTrailingDot(qname), rrType, 1), AnswersOk([], 0));
  }

  /** The answers build_answer lays out: none for a missing record or a type without a builder. */
  function AnswerRecords(record: Option<Record>, now: int): (rs: seq<ResourceRecord>)
    requires AnswerBuildable(record, now)
    ensures AllPackable(rs) && IsU16(|rs|)
  {
    match record
    case None => []
    case Some(rec) =>
      var builder := ReverseRRType(rec.rtype).value.builder;
      if builder.None? then [] else Records(builder.value, rec, now)
  }

  /** build_answer is its header, the question section it was given, and the answers' wire form. */
  lemma AnswerMessageParts(tid: int, record: Option<Record>, origQuestion: seq<byte>, now: int)
    requires IsU16(tid) && AnswerBuildable(record, now)
    ensures AnswerMessage(tid, record, origQuestion, now)
         == Header(tid, if record.None? then NO_RECORD_FLAGS else ANSWER_FLAGS, 1, |AnswerRecords(record, now)|, 0, 0)
            + origQuestion + WireAll(AnswerRecords(record, now))
  {
  }

  /** The question of a query, followed by anything, is read back as one question. */
  lemma QuestionBeforeRest(qname: seq<byte>, qtype: int, rest: seq<byte>)
    requires ValidHostname(qname) && IsU16(qtype) && Encodable(qname)
    ensures QuestionsFrom(QuestionWire(qname, qtype) + rest, 0, 1)
         == QuestionsOk([Question(WithTrailingDot(qname), qtype, 1)], |QuestionWire(qname, qtype)|)
  {
    var question := QuestionWire(qname, qtype);
    assert (question + rest)[0..|question|] == question;
    QuestionOfWire(question + rest, qname, qtype);
  }

  /** The answers build_record_* laid out, on their own, are read back whole. */
  lemma AnswersOfWhole(rs: seq<ResourceRecord>)
    requires AllPackable(rs) && Framed(rs)
    ensures AnswersFrom(WireAll(rs), 0, |rs|) == AnswersOk(ParsedAnswers(rs), |WireAll(rs)|)
  {
    var rest := WireAll(rs);
    assert rest[0..|rest|] == rest;
    AnswersOfWire(rest, 0, rs, |rs|);
  }

  /** parse_dns of a response to a valid name: a header, the question section, and framed answers. */
  lemma ParseResponse(msg: seq<byte>, hostname: seq<byte>, header: seq<byte>, qname: seq<byte>, qtype: int,
                      rs: seq<ResourceRecord>, flags: int)
    requires ValidHostname(qname) && IsU16(qtype) && Encodable(qname) && AllPackable(rs) && Framed(rs)
    requires msg == header + QuestionWire(qname, qtype) + WireAll(rs) && |header| == 12
    requires U16At(header, 2) == flags && IsU16(flags) && (Rcode(flags) == 0 || Rcode(flags) == 3)
    requires U16At(header, 4) == 1 && U16At(header, 6) == |rs|
    ensures ParseDns(msg, hostname)
         == Parsed(U16At(header, 0), flags < 0x8000, qtype, 1, [Question(WithTrailingDot(qname), qtype, 1)],
                   QuestionWire(qname, qtype), |rs|, AnswersOk(ParsedAnswers(rs), |WireAll(rs)|))
  {
    var question := QuestionWire(qname, qtype);
    var rest := WireAll(rs);
    QuestionBeforeRest(qname, qtype, rest);
    AnswersOfWhole(rs);
    ParseFramed(msg, hostname, header, question, rest,
                flags, |rs|, Question(WithTrailingDot(qname), qtype, 1), AnswersOk(ParsedAnswers(rs), |rest|));
  }

  /**
   * parse_dns of what build_answer lays out for the question section of a
   * query for a valid name: a response with the same transaction id and
   * question, and the answers as the builder made them. The rcode is 3 when
   * there is no record, which parse_dns accepts.
   */
  lemma ParseAnswer(tid: int, record: Option<Record>, qname: seq<byte>, qtype: int, now: int, hostname: seq<byte>)
    requires IsU16(tid) && IsU16(qtype) && ValidHostname(qname) && AnswerBuildable(record, now)
    requires Framed(AnswerRecords(record, now))
    ensures Encodable(qname)
    ensures ParseDns(AnswerMessage(tid, record, QuestionWire(qname, qtype), now), hostname)
         == Parsed(tid, false, qtype, 1, [Question(WithTrailingDot(qname), qtype, 1)], QuestionWire(qname, qtype),
                   |AnswerRecords(record, now)|,
                   AnswersOk(ParsedAnswers(AnswerRecords(record, now)), |WireAll(AnswerRecords(record, now))|))
  {
    QuestionOfWire([], qname, qtype);
    var rs := AnswerRecords(record, now);
    var flags := if record.None? then NO_RECORD_FLAGS else ANSWER_FLAGS;
    AnswerMessageParts(tid, record, QuestionWire(qname, qtype), now);
    ParseResponse(AnswerMessage(tid, record, QuestionWire(qname, qtype), now), hostname,
                  Header(tid, flags, 1, |rs|, 0, 0), qname, qtype, rs, flags);
  }

  /**
   * A whole exchange: the question section parse_dns returns for a query
   * for a valid name, handed to build_answer, comes back from parse_dns
   * with the same transaction id, type and question.
   */
  lemma Exchange(tid: int, qname: seq<byte>, qtype: int, edns: int, record: Option<Record>, now: int, hostname: seq<byte>)
    requires IsU16(tid) && IsU16(qtype) && IsU16(edns) && ValidHostname(qname) && AnswerBuildable(record, now)
    requires Framed(AnswerRecords(record, now))
    ensures Encodable(qname)
    ensures var query := ParseDns(QueryMessage(tid, qname, qtype, edns), hostname);
      && query.Parsed? && query.isQuery
      && var reply := ParseDns(AnswerMessage(query.tid, record, query.origQuestion, now), hostname);
      && reply.Parsed? && !reply.isQuery
      && reply.tid == tid && reply.qtype == qtype && reply.questions == query.questions
      && reply.answers == AnswersOk(ParsedAnswers(AnswerRecords(record, now)), |WireAll(AnswerRecords(record, now))|)
  {
    ParseQuery(tid, qname, qtype, edns, hostname);
    ParseAnswer(tid, record, qname, qtype, now, hostname);
  }

  /** A message that is a header, a question (a name, two fields) and more: what follows the header starts with the name. */
  lemma NameAfterHeader(msg: seq<byte>, header: seq<byte>, name: seq<byte>, f1: seq<byte>, f2: seq<byte>, more: seq<byte>)
    requires msg == header + (name + f1 + f2) + more && |header| == 12
    ensures msg[12..] == name + (f1 + f2 + more) && U16At(msg, 4) == U16At(header, 4)
  {
    assert msg[4] == header[4] && msg[5] == header[5];
  }

  /** The name is_valid_dns decodes from a query build_query laid out for a valid name. */
  lemma QueryName(tid: int, qname: seq<byte>, rrType: int, edns: int)
    requires IsU16(tid) && IsU16(rrType) && IsU16(edns) && ValidHostname(qname)
    ensures Encodable(qname)
    ensures var msg := QueryMessage(tid, qname, rrType, edns);
      |msg| >= 17 + |WithTrailingDot(qname)| && U16At(msg, 4) == 1
      && DecodeName(msg[12..]).name == WithTrailingDot(qname)
  {
    DecodeEncodeName(qname, []);
    var opt: seq<byte> := if edns != 0 then BuildRecordOpt() else [];
    var msg := QueryMessage(tid, qname, rrType, edns);
    NameAfterHeader(msg, Header(tid, QUERY_FLAGS, 1, 0, 0, edns), EncodeName(qname), PackU16(rrType), PackU16(1), opt);
    DecodeEncodeName(qname, PackU16(rrType) + PackU16(1) + opt);
  }

  /**
   * is_valid_dns accepts a query build_query laid out for a valid name
   * exactly when the name, with its final dot, ends with the server's
   * hostname. A hostname configured without its final dot therefore
   * matches no query.
   */
  lemma QueryIsValid(tid: int, qname: seq<byte>, rrType: int, edns: int, hostname: seq<byte>)
    requires IsU16(tid) && IsU16(rrType) && IsU16(edns) && ValidHostname(qname)
    ensures Encodable(qname)
    ensures IsValidDns(QueryMessage(tid, qname, rrType, edns), hostname) <==> EndsWith(WithTrailingDot(qname), hostname)
  {
    QueryName(tid, qname, rrType, edns);
    IsValidDnsEndsWith(QueryMessage(tid, qname, rrType, edns), hostname);
  }

  /** The queries the client sends, data + hostname with hostname ending in a dot, pass the server's gate. */
  lemma ClientQueryIsValid(tid: int, data: seq<byte>, hostname: seq<byte>, rrType: int, edns: int)
    requires IsU16(tid) && IsU16(rrType) && IsU16(edns) && ValidHostname(data + hostname)
    requires |hostname| > 0 && hostname[|hostname| - 1] == DOT
    ensures Encodable(data + hostname)
    ensures IsValidDns(QueryMessage(tid, data + hostname, rrType, edns), hostname)
  {
    QueryIsValid(tid, data + hostname, rrType, edns, hostname);
    assert WithTrailingDot(data + hostname) == data + hostname;
    assert (data + hostname)[|data|..] == hostname;
  }

  /** build_record_A writes RDLENGTH 4 whatever the item: framed exactly when every address is four bytes. */
  lemma AFramed(items: seq<seq<byte>>, count: nat)
    requires count <= |items|
    ensures Framed(ARecords(items, count)) <==> forall i :: 0 <= i < count ==> |items[i]| == 4
  {
    var rs := ARecords(items, count);
    assert forall i :: 0 <= i < count ==> rs[i].rdata == items[i] && rs[i].rdlength == 4;
  }

  /** build_record_AAAA writes RDLENGTH 16 whatever the item: framed exactly when every address is sixteen bytes. */
  lemma AaaaFramed(items: seq<seq<byte>>, count: nat)
    requires count <= |items|
    ensures Framed(AaaaRecords(items, count)) <==> forall i :: 0 <= i < count ==> |items[i]| == 16
  {
    var rs := AaaaRecords(items, count);
    assert forall i :: 0 <= i < count ==> rs[i].rdata == items[i] && rs[i].rdlength == 16;
  }

  /** build_record_CNAME's RDLENGTH is the length of the encoded name. */
  lemma CnameFramed(items: seq<seq<byte>>, count: nat)
    requires NamesFit(items, count, 0)
    ensures Framed(CnameRecords(items, count))
  {
    var rs := CnameRecords(items, count);
    assert forall i :: 0 <= i < count ==> rs[i].rdata == EncodeName(items[i]) && rs[i].rdlength == |EncodeName(items[i])|;
  }

  /** build_record_MX's RDLENGTH counts the preference and the encoded name. */
  lemma MxFramed(items: seq<seq<byte>>, count: nat)
    requires NamesFit(items, count, 2) && count <= 6553
    ensures Framed(MxRecords(items, count))
  {
    var rs := MxRecords(items, count);
    forall i | 0 <= i < count
      ensures rs[i].rdlength == |rs[i].rdata|
    {
      assert rs[i].rdata == PackU16(10 * i + 10) + EncodeName(items[i]);
    }
  }

  /** build_record_SRV's RDLENGTH counts priority, weight, port and the encoded name. */
  lemma SrvFramed(items: seq<seq<byte>>, count: nat)
    requires NamesFit(items, count, 6) && count <= 3277
    ensures Framed(SrvRecords(items, count))
  {
    var rs := SrvRecords(items, count);
    forall i | 0 <= i < count
      ensures rs[i].rdlength == |rs[i].rdata|
    {
      assert rs[i].rdata == PackU16(10 * i + 10) + PackU16(20 * i + 10) + PackU16(1337) + EncodeName(items[i]);
    }
  }

  /** build_record_NULL, build_record_PRIVATE and build_record_TXT count exactly the data they append. */
  lemma ItemsFramed(items: seq<seq<byte>>, count: nat)
    requires ItemsFit(items, count, 0)
    ensures Framed(NullRecords(items, count)) && Framed(PrivateRecords(items, count))
    ensures TextsFit(items, count) ==> Framed(TxtRecords(items, count))
  {
    var nulls := NullRecords(items, count);
    var privates := PrivateRecords(items, count);
    assert forall i :: 0 <= i < count ==> nulls[i].rdata == items[i] && nulls[i].rdlength == |items[i]|;
    assert forall i :: 0 <= i < count ==> privates[i].rdata == items[i] && privates[i].rdlength == |items[i]|;
    if TextsFit(items, count) {
      var texts := TxtRecords(items, count);
      assert forall i :: 0 <= i < count ==> |texts[i].rdata| == 1 + |items[i]| && texts[i].rdlength == |items[i]| + 1;
    }
  }

  /** build_record_DNSKEY's RDLENGTH counts the four bytes before the key. */
  lemma DnskeyFramed(items: seq<seq<byte>>, count: nat)
    requires ItemsFit(items, count, 4)
    ensures Framed(DnskeyRecords(items, count))
  {
    var rs := DnskeyRecords(items, count);
    forall i | 0 <= i < |rs|
      ensures rs[i].rdlength == |rs[i].rdata|
    {
      assert |PackU16(0x0100) + [3, 8] + items[i]| == 4 + |items[i]|;
    }
  }

  /** build_record_RRSIG's RDLENGTH counts the eighteen fixed bytes before the signer's name. */
  lemma RrsigFramed(record: Record, now: int)
    requires SignatureFits(record, now)
    ensures Framed(RrsigRecords(record, now))
  {
    var rs := RrsigRecords(record, now);
    var signer := EncodeName(record.origin);
    forall i | 0 <= i < |rs|
      ensures rs[i].rdlength == |rs[i].rdata|
    {
      var fixed := PackU16(16) + [10, 2] + PackU32(5) + PackU32(now + 3600 * 36) + PackU32(now + 3600 * 12) + PackU16(31005);
      assert |fixed| == 18;
      assert rs[i].rdata == fixed + signer + record.items[i];
    }
  }

  /**
   * The builders that take their data as given: A and AAAA write a fixed
   * RDLENGTH of 4 and 16, and ANY a fixed 4 before the address.
   */
  predicate AddressesSized(builder: Builder, record: Record, now: int)
    requires BuilderAccepts(builder, record, now)
  {
    match builder
    case BuildA => forall i :: 0 <= i < record.count ==> |record.items[i]| == 4
    case BuildAaaa => forall i :: 0 <= i < record.count ==> |record.items[i]| == 16
    case BuildAny => |record.address| == 4
    case _ => true
  }

  /**
   * Every builder frames its answers, so that parse_answers lands on the
   * next one, except that A, AAAA and ANY do so only when the addresses
   * have the sizes their fixed RDLENGTH announces.
   */
  lemma RecordsFramed(builder: Builder, record: Record, now: int)
    requires BuilderAccepts(builder, record, now)
    ensures Framed(Records(builder, record, now)) <==> AddressesSized(builder, record, now)
  {
    match builder
    case BuildA => AFramed(record.items, record.count);
    case BuildAaaa => AaaaFramed(record.items, record.count);
    case BuildAny =>
      var rs := AnyRecords(record);
      assert rs[1].rdata == record.address && rs[1].rdlength == 4;
    case BuildNs =>
    case BuildSoa =>
    case BuildCname => CnameFramed(record.items, record.count);
    case BuildMx => MxFramed(record.items, record.count);
    case BuildSrv => SrvFramed(record.items, record.count);
    case BuildRrsig => RrsigFramed(record, now);
    case BuildDnskey => DnskeyFramed(record.items, record.count);
    case BuildNull => ItemsFramed(record.items, record.count);
    case BuildPrivate => ItemsFramed(record.items, record.count);
    case BuildTxt =>
      assert ItemsFit(record.items, record.count, 0);
      ItemsFramed(record.items, record.count);
  }
}
