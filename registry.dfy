// The resource record type registry of dns_proto.py (the RR_types
// dictionary built in DNS_Proto.__init__) and its lookups. Each entry maps
// a type code (section 3.2.2 of RFC 1035 and later registrations) to its
// name and, for the types this codec implements, the answer builder, the
// payload packer and unpacker and the throughput calculator it uses.

module Registry {
  import opened Bytes
  import opened Builders

  datatype Option<T> = None | Some(value: T)

  /** The build_record_* method a type answers with. */
  datatype Builder =
    | BuildA | BuildNs | BuildCname | BuildSoa | BuildNull | BuildMx | BuildTxt
    | BuildAaaa | BuildSrv | BuildRrsig | BuildDnskey | BuildAny | BuildPrivate

  /** pack_record_id or pack_record_hostname. */
  datatype Packer = PackId | PackHostname

  /** unpack_record_id or unpack_record_hostname. */
  datatype Unpacker = UnpackId | UnpackHostname

  /** calc_max_throughput_A, calc_max_throughput_id or calc_max_throughput_CNAME. */
  datatype Throughput = ThroughputA | ThroughputId | ThroughputCname

  /** [name, builder, pack, unpack, throughput]; None where the codec has no such method for the type. */
  datatype RRType = RRType(name: string, builder: Option<Builder>, pack: Option<Packer>,
                           unpack: Option<Unpacker>, throughput: Option<Throughput>)

  /** A type that is only named: no builder, packer, unpacker or throughput calculator. */
  function Unimplemented(name: string): (t: RRType)
    ensures t.name == name && t.builder.None? && t.pack.None? && t.unpack.None? && t.throughput.None?
  {
    RRType(name, None, None, None, None)
  }

  /** One key of RR_types with its value. */
  datatype Entry = Entry(code: int, rr: RRType)

  /** The keys 0 to 14. */
  const RUN_1: seq<Entry> := [
      Entry(0, Unimplemented("")),
      Entry(1, RRType("A", Some(BuildA), Some(PackId), Some(UnpackHostname), Some(ThroughputA))),
      Entry(2, RRType("NS", Some(BuildNs), Some(PackId), Some(UnpackId), Some(ThroughputId))),
      Entry(3, Unimplemented("MD")),
      Entry(4, Unimplemented("MF")),
      Entry(5, RRType("CNAME", Some(BuildCname), Some(PackHostname), Some(UnpackHostname), Some(ThroughputCname))),
      Entry(6, RRType("SOA", Some(BuildSoa), Some(PackId), Some(UnpackId), Some(ThroughputId))),
      Entry(7, Unimplemented("MB")),
      Entry(8, Unimplemented("MG")),
      Entry(9, Unimplemented("MR")),
      Entry(10, RRType("NULL", Some(BuildNull), Some(PackId), Some(UnpackId), Some(ThroughputId))),
      Entry(11, Unimplemented("WKS")),
      Entry(12, Unimplemented("PTR")),
      Entry(13, Unimplemented("HINFO")),
      Entry(14, Unimplemented("MINFO"))
    ]

  /** The keys 15 to 29. */
  const RUN_2: seq<Entry> := [
      Entry(15, RRType("MX", Some(BuildMx), Some(PackHostname), Some(UnpackHostname), None)),
      Entry(16, RRType("TXT", Some(BuildTxt), Some(PackId), Some(UnpackId), Some(ThroughputId))),
      Entry(17, Unimplemented("RP")),
      Entry(18, Unimplemented("AFSDB")),
      Entry(19, Unimplemented("X25")),
      Entry(20, Unimplemented("ISDN")),
      Entry(21, Unimplemented("RT")),
      Entry(22, Unimplemented("NSAP")),
      Entry(23, Unimplemented("NSAP-PTR")),
      Entry(24, Unimplemented("SIG")),
      Entry(25, Unimplemented("KEY")),
      Entry(26, Unimplemented("PX")),
      Entry(27, Unimplemented("GPOS")),
      Entry(28, RRType("AAAA", Some(BuildAaaa), Some(PackId), Some(UnpackHostname), None)),
      Entry(29, Unimplemented("LOC"))
    ]

  /** The keys 30 to 43. */
  const RUN_3: seq<Entry> := [
      Entry(30, Unimplemented("NXT")),
      Entry(31, Unimplemented("EID")),
      Entry(32, Unimplemented("NIMLOC")),
      Entry(33, RRType("SRV", Some(BuildSrv), Some(PackHostname), Some(UnpackHostname), None)),
      Entry(34, Unimplemented("ATMA")),
      Entry(35, Unimplemented("NAPTR")),
      Entry(36, Unimplemented("KX")),
      Entry(37, Unimplemented("CERT")),
      Entry(38, Unimplemented("A6")),
      Entry(39, Unimplemented("DNAME")),
      Entry(40, Unimplemented("SINK")),
      Entry(41, Unimplemented("OPT")),
      Entry(42, Unimplemented("APL")),
      Entry(43, Unimplemented("DS"))
    ]

  /** The keys 44 to 58. */
  const RUN_4: seq<Entry> := [
      Entry(44, Unimplemented("SSHFP")),
      Entry(45, Unimplemented("IPSECKEY")),
      Entry(46, RRType("RRSIG", Some(BuildRrsig), Some(PackId), None, None)),
      Entry(47, Unimplemented("NSEC")),
      Entry(48, RRType("DNSKEY", Some(BuildDnskey), Some(PackId), None, None)),
      Entry(49, Unimplemented("DHCID")),
      Entry(50, Unimplemented("NSEC3")),
      Entry(51, Unimplemented("NSEC3PARAM")),
      Entry(52, Unimplemented("TLSA")),
      Entry(53, Unimplemented("SMIMEA")),
      Entry(55, Unimplemented("HIP")),
      Entry(56, Unimplemented("NINFO")),
      Entry(57, Unimplemented("RKEY")),
      Entry(58, Unimplemented("TALINK"))
    ]

  /** The keys 59 to 108. */
  const RUN_5: seq<Entry> := [
      Entry(59, Unimplemented("CDS")),
      Entry(60, Unimplemented("CDNSKEY")),
      Entry(61, Unimplemented("OPENPGPKEY")),
      Entry(62, Unimplemented("CSYNC")),
      Entry(99, Unimplemented("SPF")),
      Entry(100, Unimplemented("UINFO")),
      Entry(101, Unimplemented("UID")),
      Entry(102, Unimplemented("GID")),
      Entry(103, Unimplemented("UNSPEC")),
      Entry(104, Unimplemented("NID")),
      Entry(105, Unimplemented("L32")),
      Entry(106, Unimplemented("L64")),
      Entry(107, Unimplemented("LP")),
      Entry(108, Unimplemented("EUI48"))
    ]

  /** The keys 109 to 65399. */
  const RUN_6: seq<Entry> := [
      Entry(109, Unimplemented("EUI64")),
      Entry(249, Unimplemented("TKEY")),
      Entry(250, Unimplemented("TSIG")),
      Entry(251, Unimplemented("IXFR")),
      Entry(252, Unimplemented("AXFR")),
      Entry(253, Unimplemented("MAILB")),
      Entry(254, Unimplemented("MAILA")),
      Entry(255, RRType("*", Some(BuildAny), Some(PackId), Some(UnpackId), Some(ThroughputId))),
      Entry(256, Unimplemented("URI")),
      Entry(257, Unimplemented("CAA")),
      Entry(258, Unimplemented("AVC")),
      Entry(32768, Unimplemented("TA")),
      Entry(32769, Unimplemented("DLV")),
      Entry(65399, RRType("PRIVATE", Some(BuildPrivate), Some(PackId), Some(UnpackId), Some(ThroughputId)))
    ]

  /** The RR_types dictionary in ascending order of its keys, in runs short enough to check entry by entry. */
  const TABLE: seq<Entry> := RUN_1 + RUN_2 + RUN_3 + RUN_4 + RUN_5 + RUN_6

  // ---- The table is a dictionary and no two types share a name ----

  /** Keys strictly increase along `t`. */
  predicate Increasing(t: seq<Entry>)
  {
    forall i, j :: 0 <= i < j < |t| ==> t[i].code < t[j].code
  }

  /** Each key is below the next one. */
  predicate Adjacent(t: seq<Entry>)
  {
    forall i :: 0 < i < |t| ==> t[i - 1].code < t[i].code
  }

  /** No two entries of `t` share a name. */
  predicate NamesDistinct(t: seq<Entry>)
  {
    forall i, j :: 0 <= i < j < |t| ==> t[i].rr.name != t[j].rr.name
  }

  /** No entry of `a` shares a name with an entry of `b`. */
  predicate NamesApart(a: seq<Entry>, b: seq<Entry>)
  {
    forall i, j :: 0 <= i < |a| && 0 <= j < |b| ==> a[i].rr.name != b[j].rr.name
  }

  /** Keys that increase from each entry to the next increase along the whole run. */
  lemma {:induction false} AdjacentIncreasing(t: seq<Entry>)
    requires Adjacent(t)
    ensures Increasing(t)
    decreases |t|
  {
    if |t| > 1 {
      var init := t[..|t| - 1];
      assert Adjacent(init) by {
        forall i | 0 < i < |init|
          ensures init[i - 1].code < init[i].code
        {
          assert init[i - 1] == t[i - 1] && init[i] == t[i];
        }
      }
      AdjacentIncreasing(init);
      forall i, j | 0 <= i < j < |t|
        ensures t[i].code < t[j].code
      {
        if j < |t| - 1 {
          assert init[i] == t[i] && init[j] == t[j];
        } else if i < j - 1 {
          assert init[i] == t[i] && init[j - 1] == t[j - 1];
        }
      }
    }
  }

  lemma AdjacentConcat(a: seq<Entry>, b: seq<Entry>)
    requires Adjacent(a) && Adjacent(b) && |a| > 0 && |b| > 0 && a[|a| - 1].code < b[0].code
    ensures Adjacent(a + b)
  {
    forall i | 0 < i < |a + b|
      ensures (a + b)[i - 1].code < (a + b)[i].code
    {
      if i > |a| {
        assert (a + b)[i - 1] == b[i - 1 - |a|] && (a + b)[i] == b[i - |a|];
      } else if i < |a| {
        assert (a + b)[i - 1] == a[i - 1] && (a + b)[i] == a[i];
      }
    }
  }

  lemma DistinctConcat(a: seq<Entry>, b: seq<Entry>)
    requires NamesDistinct(a) && NamesDistinct(b) && NamesApart(a, b)
    ensures NamesDistinct(a + b)
  {
    forall i, j | 0 <= i < j < |a + b|
      ensures (a + b)[i].rr.name != (a + b)[j].rr.name
    {
      if j < |a| {
      } else if i >= |a| {
        assert (a + b)[i] == b[i - |a|] && (a + b)[j] == b[j - |a|];
      } else {
        assert (a + b)[i] == a[i] && (a + b)[j] == b[j - |a|];
      }
    }
  }

  lemma ApartConcat(a: seq<Entry>, b: seq<Entry>, c: seq<Entry>)
    requires NamesApart(a, c) && NamesApart(b, c)
    ensures NamesApart(a + b, c)
  {
    forall i, j | 0 <= i < |a + b| && 0 <= j < |c|
      ensures (a + b)[i].rr.name != c[j].rr.name
    {
      if i >= |a| {
        assert (a + b)[i] == b[i - |a|];
      }
    }
  }

  lemma Run1Adjacent()
    ensures Adjacent(RUN_1)
    ensures RUN_1[|RUN_1| - 1].code < RUN_2[0].code
  {
  }

  lemma Run2Adjacent()
    ensures Adjacent(RUN_2)
    ensures RUN_2[|RUN_2| - 1].code < RUN_3[0].code
  {
  }

  lemma Run3Adjacent()
    ensures Adjacent(RUN_3)
    ensures RUN_3[|RUN_3| - 1].code < RUN_4[0].code
  {
  }

  lemma Run4Adjacent()
    ensures Adjacent(RUN_4)
    ensures RUN_4[|RUN_4| - 1].code < RUN_5[0].code
  {
  }

  lemma Run5Adjacent()
    ensures Adjacent(RUN_5)
    ensures RUN_5[|RUN_5| - 1].code < RUN_6[0].code
  {
  }

  lemma Run6Adjacent()
    ensures Adjacent(RUN_6)
  {
  }

  lemma Run1Distinct()
    ensures NamesDistinct(RUN_1)
  {
  }

  lemma Run2Distinct()
    ensures NamesDistinct(RUN_2)
  {
  }

  lemma Run3Distinct()
    ensures NamesDistinct(RUN_3)
  {
  }

  lemma Run4Distinct()
    ensures NamesDistinct(RUN_4)
  {
  }

  lemma Run5Distinct()
    ensures NamesDistinct(RUN_5)
  {
  }

  lemma Run6Distinct()
    ensures NamesDistinct(RUN_6)
  {
  }

  lemma Runs12Apart()
    ensures NamesApart(RUN_1, RUN_2)
  {
  }

  lemma Runs13Apart()
    ensures NamesApart(RUN_1, RUN_3)
  {
  }

  lemma Runs14Apart()
    ensures NamesApart(RUN_1, RUN_4)
  {
  }

  lemma Runs15Apart()
    ensures NamesApart(RUN_1, RUN_5)
  {
  }

  lemma Runs16Apart()
    ensures NamesApart(RUN_1, RUN_6)
  {
  }

  lemma Runs23Apart()
    ensures NamesApart(RUN_2, RUN_3)
  {
  }

  lemma Runs24Apart()
    ensures NamesApart(RUN_2, RUN_4)
  {
  }

  lemma Runs25Apart()
    ensures NamesApart(RUN_2, RUN_5)
  {
  }

  lemma Runs26Apart()
    ensures NamesApart(RUN_2, RUN_6)
  {
  }

  lemma Runs34Apart()
    ensures NamesApart(RUN_3, RUN_4)
  {
  }

  lemma Runs35Apart()
    ensures NamesApart(RUN_3, RUN_5)
  {
  }

  lemma Runs36Apart()
    ensures NamesApart(RUN_3, RUN_6)
  {
  }

  lemma Runs45Apart()
    ensures NamesApart(RUN_4, RUN_5)
  {
  }

  lemma Runs46Apart()
    ensures NamesApart(RUN_4, RUN_6)
  {
  }

  lemma Runs56Apart()
    ensures NamesApart(RUN_5, RUN_6)
  {
  }

  /** The keys of RR_types, in the order of TABLE, strictly increase: each type code has one entry. */
  lemma TableIncreasing()
    ensures Increasing(TABLE)
  {
    Run1Adjacent(); Run2Adjacent(); Run3Adjacent(); Run4Adjacent(); Run5Adjacent(); Run6Adjacent();
    AdjacentConcat(RUN_1, RUN_2);
    AdjacentConcat(RUN_1 + RUN_2, RUN_3);
    AdjacentConcat(RUN_1 + RUN_2 + RUN_3, RUN_4);
    AdjacentConcat(RUN_1 + RUN_2 + RUN_3 + RUN_4, RUN_5);
    AdjacentConcat(RUN_1 + RUN_2 + RUN_3 + RUN_4 + RUN_5, RUN_6);
    AdjacentIncreasing(TABLE);
  }

  /** No two types of RR_types share a name. */
  lemma TableNamesDistinct()
    ensures NamesDistinct(TABLE)
  {
    Run1Distinct(); Run2Distinct(); Run3Distinct(); Run4Distinct(); Run5Distinct(); Run6Distinct();
    Runs12Apart();
    DistinctConcat(RUN_1, RUN_2);
    Runs13Apart(); Runs23Apart();
    ApartConcat(RUN_1, RUN_2, RUN_3);
    DistinctConcat(RUN_1 + RUN_2, RUN_3);
    Runs14Apart(); Runs24Apart(); Runs34Apart();
    ApartConcat(RUN_1, RUN_2, RUN_4);
    ApartConcat(RUN_1 + RUN_2, RUN_3, RUN_4);
    DistinctConcat(RUN_1 + RUN_2 + RUN_3, RUN_4);
    Runs15Apart(); Runs25Apart(); Runs35Apart(); Runs45Apart();
    ApartConcat(RUN_1, RUN_2, RUN_5);
    ApartConcat(RUN_1 + RUN_2, RUN_3, RUN_5);
    ApartConcat(RUN_1 + RUN_2 + RUN_3, RUN_4, RUN_5);
    DistinctConcat(RUN_1 + RUN_2 + RUN_3 + RUN_4, RUN_5);
    Runs16Apart(); Runs26Apart(); Runs36Apart(); Runs46Apart(); Runs56Apart();
    ApartConcat(RUN_1, RUN_2, RUN_6);
    ApartConcat(RUN_1 + RUN_2, RUN_3, RUN_6);
    ApartConcat(RUN_1 + RUN_2 + RUN_3, RUN_4, RUN_6);
    ApartConcat(RUN_1 + RUN_2 + RUN_3 + RUN_4, RUN_5, RUN_6);
    DistinctConcat(RUN_1 + RUN_2 + RUN_3 + RUN_4 + RUN_5, RUN_6);
  }

  // ---- The lookups ----

  /** The value stored under `code` in `t`, found by a scan from the front. */
  function FindCode(t: seq<Entry>, code: int): (r: Option<RRType>)
    ensures r.Some? ==> exists i :: 0 <= i < |t| && t[i] == Entry(code, r.value)
    ensures r.None? ==> forall i :: 0 <= i < |t| ==> t[i].code != code
    decreases |t|
  {
    if |t| == 0 then None
    else if t[0].code == code then Some(t[0].rr)
    else
      var r := FindCode(t[1..], code);
      assert r.Some? ==> exists i :: 0 <= i < |t| && t[i] == Entry(code, r.value) by {
        if r.Some? {
          var i :| 0 <= i < |t[1..]| && t[1..][i] == Entry(code, r.value);
          assert t[i + 1] == Entry(code, r.value);
        }
      }
      r
  }

  /** The first entry of `t` with the type name `name`. */
  function FindName(t: seq<Entry>, name: string): (r: Option<Entry>)
    ensures r.Some? ==> r.value.rr.name == name && exists i :: 0 <= i < |t| && t[i] == r.value
    ensures r.None? ==> forall i :: 0 <= i < |t| ==> t[i].rr.name != name
    decreases |t|
  {
    if |t| == 0 then None
    else if t[0].rr.name == name then Some(t[0])
    else
      var r := FindName(t[1..], name);
      assert r.Some? ==> exists i :: 0 <= i < |t| && t[i] == r.value by {
        if r.Some? {
          var i :| 0 <= i < |t[1..]| && t[1..][i] == r.value;
          assert t[i + 1] == r.value;
        }
      }
      r
  }

  /**
   * get_RR_type: the entry under `num`, or None when the dictionary has no
   * such key (the source also prints an error there).
   */
  function GetRRType(num: int): (r: Option<RRType>)
    ensures r.Some? <==> exists i :: 0 <= i < |TABLE| && TABLE[i].code == num
    ensures r.Some? ==> exists i :: 0 <= i < |TABLE| && TABLE[i] == Entry(num, r.value)
  {
    FindCode(TABLE, num)
  }

  /** The outcome of get_RR_type as written: the stored entry, or an exception. */
  datatype Lookup = Found(rr: RRType) | Raised

  /**
   * get_RR_type as written: for a code that is not a key it calls
   * common.internal_print, but dns_proto.py never imports `common`, so the
   * call raises NameError before the None is returned.
   */
  function GetRRTypeAsWritten(num: int): (r: Lookup)
    ensures r.Raised? <==> GetRRType(num).None?
    ensures r.Found? ==> GetRRType(num) == Some(r.rr)
  {
    match FindCode(TABLE, num)
    case None => Raised
    case Some(rr) => Found(rr)
  }

  /** 65535 (reserved) is above every key: the intended lookup gives None, the written one raises. */
  lemma GetRRTypeAsWrittenRaises()
    ensures GetRRType(65535) == None
    ensures GetRRTypeAsWritten(65535) == Raised
  {
    TableIncreasing();
    var last := |TABLE| - 1;
    forall i | 0 <= i < |TABLE|
      ensures TABLE[i].code != 65535
    {
      if i < last {
        assert TABLE[i].code < TABLE[last].code;
      }
    }
  }

  /**
   * reverse_RR_type:the entry whose name is `rrType`; None stands for the
   * 0 the source returns when there is none. The source iterates over the
   * dictionary in its own order; TableNamesDistinct makes the order
   * irrelevant.
   */
  function ReverseRRType(rrType: string): (r: Option<RRType>)
    ensures r.Some? <==> exists i :: 0 <= i < |TABLE| && TABLE[i].rr.name == rrType
    ensures r.Some? ==> r.value.name == rrType
  {
    match FindName(TABLE, rrType)
    case None => None
    case Some(e) => Some(e.rr)
  }

  /** reverse_RR_type_num: the key whose name is `rrType`, or 0 when there is none. */
  function ReverseRRTypeNum(rrType: string): (r: int)
    ensures r != 0 ==> exists i :: 0 <= i < |TABLE| && TABLE[i].code == r && TABLE[i].rr.name == rrType
  {
    match FindName(TABLE, rrType)
    case None => 0
    case Some(e) => e.code
  }

  /** Looking up the key of an entry finds that entry: each key is stored once. */
  lemma GetRRTypeAt(i: nat)
    requires i < |TABLE|
    ensures GetRRType(TABLE[i].code) == Some(TABLE[i].rr)
  {
    TableIncreasing();
    var r := GetRRType(TABLE[i].code);
    var j :| 0 <= j < |TABLE| && TABLE[j] == Entry(TABLE[i].code, r.value);
    assert j == i;
  }

  /** Looking up the name of an entry finds that entry and its key, whatever the order of the scan. */
  lemma ReverseRRTypeAt(i: nat)
    requires i < |TABLE|
    ensures ReverseRRType(TABLE[i].rr.name) == Some(TABLE[i].rr)
    ensures ReverseRRTypeNum(TABLE[i].rr.name) == TABLE[i].code
  {
    TableNamesDistinct();
    var e := FindName(TABLE, TABLE[i].rr.name).value;
    var j :| 0 <= j < |TABLE| && TABLE[j] == e;
    assert j == i;
  }

  /** reverse_RR_type_num and get_RR_type are inverse: the key found for a name stores that name's entry. */
  lemma GetReverseRRType(rrType: string)
    ensures ReverseRRType(rrType).Some? ==> GetRRType(ReverseRRTypeNum(rrType)) == ReverseRRType(rrType)
    ensures ReverseRRType(rrType).None? ==> ReverseRRTypeNum(rrType) == 0
  {
    if ReverseRRType(rrType).Some? {
      var i :| 0 <= i < |TABLE| && TABLE[i].rr.name == rrType;
      ReverseRRTypeAt(i);
      GetRRTypeAt(i);
    }
  }

  /** get_record's test on one zone entry: record[0] is the type's name and record[1] the short host name. */
  predicate Matches(r: Record, typeName: string, shortName: seq<byte>)
  {
    r.rtype == typeName && r.shortName == shortName
  }

  /** The index of the first zone entry from `i` on that matches, as get_record's loop finds it. */
  function FirstMatch(zone: seq<Record>, typeName: string, shortName: seq<byte>, i: nat): (r: Option<nat>)
    requires i <= |zone|
    ensures r.Some? ==> i <= r.value < |zone| && Matches(zone[r.value], typeName, shortName)
                        && forall j :: i <= j < r.value ==> !Matches(zone[j], typeName, shortName)
    ensures r.None? ==> forall j :: i <= j < |zone| ==> !Matches(zone[j], typeName, shortName)
    decreases |zone| - i
  {
    if i == |zone| then None
    else if Matches(zone[i], typeName, shortName) then Some(i)
    else FirstMatch(zone, typeName, shortName, i + 1)
  }

  /**
   * get_record: None for an unknown type, else the first zone entry of
   * that type's name and the given short host name, or None.
   */
  function GetRecord(shortName: seq<byte>, qtype: int, zone: seq<Record>): (r: Option<Record>)
    ensures GetRRType(qtype).None? ==> r.None?
    ensures r.Some? ==> exists i :: 0 <= i < |zone| && zone[i] == r.value
                                   && Matches(r.value, GetRRType(qtype).value.name, shortName)
                                   && forall j :: 0 <= j < i ==> !Matches(zone[j], GetRRType(qtype).value.name, shortName)
    ensures r.None? && GetRRType(qtype).Some? ==>
              forall j :: 0 <= j < |zone| ==> !Matches(zone[j], GetRRType(qtype).value.name, shortName)
  {
    match GetRRType(qtype)
    case None => None
    case Some(rr) =>
      match FirstMatch(zone, rr.name, shortName, 0)
      case None => None
      case Some(i) => Some(zone[i])
  }
}
