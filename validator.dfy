// is_valid_dns of dns_proto.py: the structural gate a server applies to a
// request before parsing it, on the header (section 4.1.1 of RFC 1035)
// and on the name of the first question.

module Validator {
  import opened Bytes
  import opened Names

  /**
   * is_valid_dns: long enough for the header, the hostname and the fixed
   * question fields; exactly one question; and the name decoded at offset
   * 12, cut to the hostname's length from the end (Python's negative-start
   * slice), equal to the hostname.
   */
  function IsValidDns(msg: seq<byte>, hostname: seq<byte>): (valid: bool)
    ensures valid ==> |msg| >= 17 + |hostname| && U16At(msg, 4) == 1
  {
    if |msg| < 17 + |hostname| then false
    else if U16At(msg, 4) != 1 then false
    else
      var questionHostname := DecodeName(msg[12..]).name;
      hostname == PySuffix(questionHostname, |questionHostname| - |hostname|)
  }

  /**
   * The slice comparison is a suffix test: a hostname longer than the
   * decoded name never matches, however far the negative start reaches.
   */
  lemma IsValidDnsEndsWith(msg: seq<byte>, hostname: seq<byte>)
    ensures IsValidDns(msg, hostname) <==>
      |msg| >= 17 + |hostname| && U16At(msg, 4) == 1 && EndsWith(DecodeName(msg[12..]).name, hostname)
  {
    if |msg| >= 17 + |hostname| && U16At(msg, 4) == 1 {
      var name := DecodeName(msg[12..]).name;
      var cut := PySuffix(name, |name| - |hostname|);
      if |hostname| > |name| {
        assert |cut| < |hostname|;
      }
    }
  }
}
