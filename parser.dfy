// The message parsers of dns_proto.py: parse_questions and parse_answers
// walk the question and answer sections (sections 4.1.2 and 4.1.3 of
// RFC 1035) with a running offset, and parse_dns reads the header
// (section 4.1.1) and both sections. A struct.unpack on a slice that is too
// short raises in Python; that outcome is an explicit value here.

module Parser {
  import opened Bytes
  import opened Names

  /** ret[q] of parse_questions: the decoded name, the type and the class. */
  datatype Question = Question(name: seq<byte>, qtype: int, qclass: int)

  /**
   * What parse_questions ends with: the questions and ret["length"], the
   * offset reached; {"length": -1} when a name decodes to nothing; or an
   * exception from struct.unpack on a slice that is too short.
   */
  datatype Questions = QuestionsOk(entries: seq<Question>, length: nat) | QuestionsBad | QuestionsRaise

  /** ret[q] of parse_answers. */
  datatype Answer = Answer(name: seq<byte>, atype: int, aclass: int, ttl: int, datalen: int, data: seq<byte>)

  /** What parse_answers ends with, as for Questions. */
  datatype Answers = AnswersOk(entries: seq<Answer>, length: nat) | AnswersBad | AnswersRaise

  /** One turn of parse_questions' loop at offset i: a question and the next offset, or how the turn ends. */
  datatype QuestionStep = QuestionRead(q: Question, next: nat) | QuestionNameEmpty | QuestionShort

  function ReadQuestion(msg: seq<byte>, i: nat): (r: QuestionStep)
  {
    var d := DecodeName(Drop(msg, i));
    if d.length == 0 then QuestionNameEmpty
    else if i + d.length + 4 > |msg| then QuestionShort
    else QuestionRead(Question(d.name, U16At(msg, i + d.length), U16At(msg, i + d.length + 2)), i + d.length + 4)
  }

  /** The `k` questions read from offset `i` of `msg`. */
  function QuestionsFrom(msg: seq<byte>, i: nat, k: nat): (r: Questions)
    ensures r.QuestionsOk? ==> |r.entries| == k
    decreases k
  {
    if k == 0 then QuestionsOk([], i)
    else
      match ReadQuestion(msg, i)
      case QuestionNameEmpty => QuestionsBad
      case QuestionShort => QuestionsRaise
      case QuestionRead(q, next) => PrependQuestions([q], QuestionsFrom(msg, next, k - 1))
  }

  /** The result of the remaining turns, after the questions read so far. */
  function PrependQuestions(done: seq<Question>, r: Questions): (p: Questions)
    ensures r.QuestionsOk? ==> p.QuestionsOk? && |p.entries| == |done| + |r.entries|
    ensures !r.QuestionsOk? ==> p == r
  {
    match r
    case QuestionsOk(rest, len) => QuestionsOk(done + rest, len)
    case other => other
  }

  lemma PrependQuestionsTwice(done: seq<Question>, q: Question, r: Questions)
    ensures PrependQuestions(done, PrependQuestions([q], r)) == PrependQuestions(done + [q], r)
  {
    if r.QuestionsOk? {
      assert done + ([q] + r.entries) == done + [q] + r.entries;
    }
  }

  /** ReadQuestion in the terms of parse_questions' loop: the decoded name at offset i and its length. */
  lemma ReadQuestionAt(msg: seq<byte>, i: nat, hlen: nat, name: seq<byte>)
    requires DecodeName(Drop(msg, i)) == Decoded(hlen, name)
    ensures hlen == 0 ==> ReadQuestion(msg, i) == QuestionNameEmpty
    ensures hlen > 0 && i + hlen + 4 > |msg| ==> ReadQuestion(msg, i) == QuestionShort
    ensures hlen > 0 && i + hlen + 4 <= |msg| ==>
      ReadQuestion(msg, i) == QuestionRead(Question(name, U16At(msg, i + hlen), U16At(msg, i + hlen + 2)), i + hlen + 4)
  {
    var d := DecodeName(Drop(msg, i));
    assert d.length == hlen && d.name == name;
  }

  /** One turn of parse_questions: the questions from offset i are decided by the question read there. */
  lemma QuestionsFromStep(msg: seq<byte>, i: nat, k: nat)
    requires k > 0
    ensures ReadQuestion(msg, i).QuestionNameEmpty? ==> QuestionsFrom(msg, i, k) == QuestionsBad
    ensures ReadQuestion(msg, i).QuestionShort? ==> QuestionsFrom(msg, i, k) == QuestionsRaise
    ensures ReadQuestion(msg, i).QuestionRead? ==>
      QuestionsFrom(msg, i, k) == PrependQuestions([ReadQuestion(msg, i).q], QuestionsFrom(msg, ReadQuestion(msg, i).next, k - 1))
  {
  }

  /** The body of parse_questions' loop at offset i: decode the name, then unpack the type and the class. */
  method ReadQuestionStep(msg: seq<byte>, i: nat) returns (step: QuestionStep)
    ensures step == ReadQuestion(msg, i)
  {
    var hlen, questionHostname := HostnamebinToHostname(Drop(msg, i));
    ReadQuestionAt(msg, i, hlen, questionHostname);
    if hlen == 0 {
      return QuestionNameEmpty;
    }
    if i + hlen + 4 > |msg| {
      return QuestionShort;
    }
    step := QuestionRead(Question(questionHostname, U16At(msg, i + hlen), U16At(msg, i + hlen + 2)), i + hlen + 4);
  }

  /** parse_questions with the {"length": -1} result it evidently intends when a name decodes to nothing. */
  method ParseQuestions(msg: seq<byte>, nq: nat) returns (ret: Questions)
    ensures ret == QuestionsFrom(msg, 0, nq)
  {
    var entries: seq<Question> := [];
    var i: nat := 0;
    for q := 0 to nq
      invariant QuestionsFrom(msg, 0, nq) == PrependQuestions(entries, QuestionsFrom(msg, i, nq - q))
    {
      var step := ReadQuestionStep(msg, i);
      QuestionsFromStep(msg, i, nq - q);
      match step
      case QuestionNameEmpty =>
        return QuestionsBad;
      case QuestionShort =>
        return QuestionsRaise;
      case QuestionRead(question, next) =>
        PrependQuestionsTwice(entries, question, QuestionsFrom(msg, next, nq - q - 1));
        entries := entries + [question];
        i := next;
    }
    ret := QuestionsOk(entries, i);
  }

  /** The questions read from inside the message end inside it: ret["length"] never passes len(msg). */
  lemma {:induction false} QuestionsLength(msg: seq<byte>, i: nat, k: nat)
    requires i <= |msg|
    ensures QuestionsFrom(msg, i, k).QuestionsOk? ==> i <= QuestionsFrom(msg, i, k).length <= |msg|
    decreases k
  {
    if k > 0 && ReadQuestion(msg, i).QuestionRead? {
      QuestionsLength(msg, ReadQuestion(msg, i).next, k - 1);
    }
  }

  /**
   * parse_questions as written: on a name that decodes to nothing it runs
   * `ret = {length: -1}`, where the bare name `length` is not defined, so
   * it raises NameError instead of returning.
   */
  function ParseQuestionsAsWritten(msg: seq<byte>, nq: nat): (r: Questions)
    ensures !r.QuestionsBad?
  {
    var r := QuestionsFrom(msg, 0, nq);
    if r.QuestionsBad? then QuestionsRaise else r
  }

  /** An empty message with one question: the code as written raises where {"length": -1} is intended. */
  lemma ParseQuestionsAsWrittenRaises()
    ensures QuestionsFrom([], 0, 1) == QuestionsBad
    ensures ParseQuestionsAsWritten([], 1) == QuestionsRaise
  {
    assert Drop([], 0) == [];
  }

  /** One turn of parse_answers' loop at offset i. */
  datatype AnswerStep = AnswerRead(a: Answer, next: nat) | AnswerNameEmpty | AnswerShort

  /** The answer whose name `name` ends at offset j: its type, class, ttl, data length and clamped data, and the offset after it. */
  function AnswerAt(msg: seq<byte>, j: nat, name: seq<byte>): (r: AnswerStep)
    requires j + 10 <= |msg|
  {
    var datalen := U16At(msg, j + 8);
    AnswerRead(Answer(name, U16At(msg, j), U16At(msg, j + 2), U32At(msg, j + 4), datalen,
                      Slice(msg, j + 10, j + 10 + datalen)), j + 10 + datalen)
  }

  function ReadAnswer(msg: seq<byte>, i: nat): (r: AnswerStep)
  {
    var d := DecodeName(Drop(msg, i));
    if d.length == 0 then AnswerNameEmpty
    else if i + d.length + 10 > |msg| then AnswerShort
    else AnswerAt(msg, i + d.length, d.name)
  }

  /** The `k` answers read from offset `i` of `msg`. */
  function AnswersFrom(msg: seq<byte>, i: nat, k: nat): (r: Answers)
    ensures r.AnswersOk? ==> |r.entries| == k
    decreases k
  {
    if k == 0 then AnswersOk([], i)
    else
      match ReadAnswer(msg, i)
      case AnswerNameEmpty => AnswersBad
      case AnswerShort => AnswersRaise
      case AnswerRead(a, next) => PrependAnswers([a], AnswersFrom(msg, next, k - 1))
  }

  function PrependAnswers(done: seq<Answer>, r: Answers): (p: Answers)
    ensures r.AnswersOk? ==> p.AnswersOk? && |p.entries| == |done| + |r.entries|
    ensures !r.AnswersOk? ==> p == r
  {
    match r
    case AnswersOk(rest, len) => AnswersOk(done + rest, len)
    case other => other
  }

  lemma PrependAnswersTwice(done: seq<Answer>, a: Answer, r: Answers)
    ensures PrependAnswers(done, PrependAnswers([a], r)) == PrependAnswers(done + [a], r)
  {
    if r.AnswersOk? {
      assert done + ([a] + r.entries) == done + [a] + r.entries;
    }
  }

  /** ReadAnswer in the terms of parse_answers' loop: the decoded name at offset i and its length. */
  lemma ReadAnswerAt(msg: seq<byte>, i: nat, hlen: nat, name: seq<byte>)
    requires DecodeName(Drop(msg, i)) == Decoded(hlen, name)
    ensures hlen == 0 ==> ReadAnswer(msg, i) == AnswerNameEmpty
    ensures hlen > 0 && i + hlen + 10 > |msg| ==> ReadAnswer(msg, i) == AnswerShort
    ensures hlen > 0 && i + hlen + 10 <= |msg| ==> ReadAnswer(msg, i) == AnswerAt(msg, i + hlen, name)
  {
    var d := DecodeName(Drop(msg, i));
    assert d.length == hlen && d.name == name;
  }

  /** One turn of parse_answers: the answers from offset i are decided by the answer read there. */
  lemma AnswersFromStep(msg: seq<byte>, i: nat, k: nat)
    requires k > 0
    ensures ReadAnswer(msg, i).AnswerNameEmpty? ==> AnswersFrom(msg, i, k) == AnswersBad
    ensures ReadAnswer(msg, i).AnswerShort? ==> AnswersFrom(msg, i, k) == AnswersRaise
    ensures ReadAnswer(msg, i).AnswerRead? ==>
      AnswersFrom(msg, i, k) == PrependAnswers([ReadAnswer(msg, i).a], AnswersFrom(msg, ReadAnswer(msg, i).next, k - 1))
  {
  }

  /** The body of parse_answers' loop at offset i: decode the name, unpack the fixed fields, take the data. */
  method ReadAnswerStep(msg: seq<byte>, i: nat) returns (step: AnswerStep)
    ensures step == ReadAnswer(msg, i)
  {
    var hlen, questionHostname := HostnamebinToHostname(Drop(msg, i));
    ReadAnswerAt(msg, i, hlen, questionHostname);
    if hlen == 0 {
      return AnswerNameEmpty;
    }
    if i + hlen + 10 > |msg| {
      return AnswerShort;
    }
    var j := i + hlen;
    var datalen := U16At(msg, j + 8);
    var answer := Answer(questionHostname, U16At(msg, j), U16At(msg, j + 2),
                         U32At(msg, j + 4), datalen, Slice(msg, j + 10, j + 10 + datalen));
    step := AnswerRead(answer, j + 10 + datalen);
    assert step == AnswerAt(msg, j, questionHostname);
  }

  /** parse_answers: the data of each answer is the clamped slice of datalen bytes after its fixed fields. */
  method ParseAnswers(msg: seq<byte>, nq: nat) returns (ret: Answers)
    ensures ret == AnswersFrom(msg, 0, nq)
  {
    var entries: seq<Answer> := [];
    var i: nat := 0;
    for q := 0 to nq
      invariant AnswersFrom(msg, 0, nq) == PrependAnswers(entries, AnswersFrom(msg, i, nq - q))
    {
      var step := ReadAnswerStep(msg, i);
      AnswersFromStep(msg, i, nq - q);
      match step
      case AnswerNameEmpty =>
        return AnswersBad;
      case AnswerShort =>
        return AnswersRaise;
      case AnswerRead(answer, next) =>
        PrependAnswersTwice(entries, answer, AnswersFrom(msg, next, nq - q - 1));
        entries := entries + [answer];
        i := next;
    }
    ret := AnswersOk(entries, i);
  }

  /**
   * What parse_dns returns: the tuple of eight None for an error rcode; or
   * the transaction id, whether the QR bit is clear (a query), the type of
   * the first question, the question count, the questions, the raw bytes
   * of the question section, the answer count and the answers (which keep
   * a {"length": -1} outcome); or an exception.
   */
  datatype Message =
    | Rejected
    | ParseRaised
    | Parsed(tid: int, isQuery: bool, qtype: int, nquestions: nat, questions: seq<Question>,
             origQuestion: seq<byte>, nanswers: nat, answers: Answers)

  /** The RCODE, the low four bits of the flags (section 4.1.1 of RFC 1035). */
  function Rcode(flags: int): (r: int)
    requires IsU16(flags)
    ensures 0 <= r < 16 && (flags - r) % 16 == 0
  {
    flags % 16
  }

  /**
   * parse_dns. A message shorter than its 12-byte header raises in
   * struct.unpack; an rcode other than 0 (no error) and 3 (name error) is
   * rejected; so is a message whose questions cannot be read, or with no
   * question (questions[0] raises KeyError). The hostname argument is
   * never read.
   */
  function ParseDns(msg: seq<byte>, hostname: seq<byte>): (r: Message)
    ensures |msg| < 12 ==> r == ParseRaised
    ensures |msg| >= 12 && Rcode(U16At(msg, 2)) != 0 && Rcode(U16At(msg, 2)) != 3 <==> r == Rejected
    ensures r.Parsed? ==>
      && r.tid == U16At(msg, 0)
      && (r.isQuery <==> U16At(msg, 2) < 0x8000)
      && r.nquestions == U16At(msg, 4) == |r.questions| > 0
      && r.nanswers == U16At(msg, 6)
      && QuestionsFrom(Drop(msg, 12), 0, r.nquestions) == QuestionsOk(r.questions, |r.origQuestion|)
      && r.qtype == r.questions[0].qtype
      && 12 + |r.origQuestion| <= |msg| && r.origQuestion == msg[12..12 + |r.origQuestion|]
      && r.answers == AnswersFrom(Drop(msg, 12 + |r.origQuestion|), 0, r.nanswers)
      && !r.answers.AnswersRaise?
  {
    if |msg| < 12 then ParseRaised
    else
      var tid := U16At(msg, 0);
      var flags := U16At(msg, 2);
      var nquestions := U16At(msg, 4);
      var nanswers := U16At(msg, 6);
      if Rcode(flags) != 0 && Rcode(flags) != 3 then Rejected
      else
        QuestionsLength(Drop(msg, 12), 0, nquestions);
        match QuestionsFrom(Drop(msg, 12), 0, nquestions)
        case QuestionsRaise => ParseRaised
        case QuestionsBad => ParseRaised
        case QuestionsOk(questions, len) =>
          var answers := AnswersFrom(Drop(msg, 12 + len), 0, nanswers);
          if answers.AnswersRaise? || nquestions == 0 then ParseRaised
          else Parsed(tid, flags < 0x8000, questions[0].qtype, nquestions, questions, msg[12..12 + len], nanswers, answers)
  }
}
