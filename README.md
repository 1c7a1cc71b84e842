# DNS_Proto: a verified model of the DNS message codec

This project models the `DNS_Proto` class of `dns_proto.py` in Dafny. `DNS_Proto` is the
DNS wire-format codec of a DNS tunnelling probe, and the model covers:

- the name codec: `hostname_to_hostnamebin` and `hostnamebin_to_hostname`, including the
  decoder's handling of compression pointers, which it detects and does not follow;
- payload chunking into labels of at most 63 bytes, and the throughput calculators;
- the `RR_types` registry and its lookups;
- the per-type answer builders;
- query and answer message assembly, including the EDNS OPT record;
- the question and answer parsers, `parse_dns` and `is_valid_dns`.

Python 2 `str` values are byte sequences (`seq<byte>`). Python's clamping slices are
written out as `Slice`, `Drop` and `PySuffix`. `struct.unpack` raises on a short slice, and
the parsers model that as an explicit "raised" result. `struct.pack` raises on an
out-of-range value, and that becomes a precondition wherever it can occur: of the name
encoder, the builders (`BuilderAccepts`, `AnswerBuildable`) and the query builder.

Modules:

- `Bytes`: big-endian packing.
- `Names`: the name codec.
- `Chunks`: the payload packers.
- `Capacity`: the throughput calculators.
- `Builders`: the per-type answer builders.
- `Registry`: the type table and record lookup.
- `Messages`: the `DnsProto` class with its `edns` field, `build_query` and `build_answer`.
- `Parser`: the parsers.
- `Validator`: `is_valid_dns`.
- `RoundTrip`: what the parser returns for messages the builders produce.

The loops of `hostname_to_hostnamebin`, `hostnamebin_to_hostname`, `pack_record_hostname`,
the answer builders, `parse_questions` and `parse_answers` are methods. Each is proved equal to
a recursive specification function, and that function's properties are proved as lemmas. The
label loop of the throughput calculators is a method proved equal to the closed form
`Capacity.LabelCapacity`. The lookup loops of `reverse_RR_type`, `reverse_RR_type_num` and
`get_record` only scan for a first match. They are modelled by the recursive functions
`Registry.FindName` and `Registry.FirstMatch`, without a method.

Behaviour of the code that the model keeps as written:

- With `set_edns(v)` for `v > 1`, `build_query` writes `v` as the additional count but
  appends a single OPT record (`QueryMessage`).
- `build_record_NULL` and `build_record_PRIVATE` write class 1 (IN), as the code does.
  They do not use a class-0 placeholder.
- `parse_answers` advances its offset by the declared data length even when the data slice
  was clamped. The reported length can therefore pass the end of the message.
- `hostnamebin_to_hostname` follows every label it reads with a dot, so any non-empty
  decoded name ends in one. An empty input, the root name or a leading pointer byte decodes to
  the empty name. A query built for a name without a trailing dot therefore passes
  `is_valid_dns` only when the dot-terminated name ends with the expected suffix
  (`RoundTrip.QueryIsValid`).

## Model

| member | source | states |
|---|---|---|
| Names.WithTrailingDot | dns_proto.py:386-387 | the name gets a dot appended exactly when it does not already end in one; the result always ends in a dot |
| Names.EncodeName | dns_proto.py:385-397 | the wire name is one byte longer than the dot-terminated name and always ends in a single zero byte |
| Names.HostnameToHostnamebin | dns_proto.py:385-397 | the find-a-dot loop builds exactly EncodeName(hostname): a length byte and the label for every segment, then the zero terminator |
| Names.FindDot | dns_proto.py:391-393 | the index found holds a dot, or is -1 |
| Names.FindDotNone | dns_proto.py:391 | find returns -1 exactly when the rest has no dot |
| Names.FindDotFirst | dns_proto.py:391-393 | find returns the position of the first dot |
| Names.DecodeName | dns_proto.py:399-419 | the consumed length is 0 exactly when the input is empty |
| Names.DecodeStops | dns_proto.py:404-412 | at the end of input the decoder reports 0 bytes, at a pointer byte (above 63) 2 bytes, at a zero byte 1 byte, each with no further name |
| Names.DecodeLabel | dns_proto.py:413-417 | a label of length l adds l + 1 to the consumed length and adds the label and a dot to the name |
| Names.HostnamebinToHostname | dns_proto.py:399-419 | the decoding loop returns exactly DecodeName(hostnamebin): the consumed length and the dotted name |
| Names.DecodeEncodeName | dns_proto.py:385-419 | for a hostname whose labels are 1..63 bytes, decoding its encoding, whatever follows it, gives back the whole encoding's length and the dot-terminated hostname |
| Chunks.ChunkCount | dns_proto.py:160 | the number of labels is the ceiling of the payload length over 63 |
| Chunks.PackRecordHostname | dns_proto.py:158-163 | the loop returns Chunked(data): the 63-byte slices, each followed by a dot |
| Chunks.ChunkedShape | dns_proto.py:158-163 | the packed form has length n + ceil(n/63); for a dot-free payload every label is 1..63 bytes and removing the dots gives the payload back |
| Chunks.UnpackRecordHostname | dns_proto.py:165-168 | the unpacked value decodes the name and contains no dot |
| Chunks.RemoveDotsIdempotent | dns_proto.py:166-168 | removing dots twice is removing them once |
| Chunks.RemoveDotsAppend | dns_proto.py:166-168 | dot removal distributes over concatenation |
| Chunks.UnpackPackedHostname | dns_proto.py:158-168 | unpack_record_hostname of the wire encoding of pack_record_hostname(d) is d, for any dot-free payload and whatever follows |
| Chunks.PackRecordId | dns_proto.py:152-153 | the payload is carried unchanged |
| Chunks.UnpackRecordId | dns_proto.py:155-156 | the payload is returned unchanged |
| Capacity.CalcMaxThroughputId | dns_proto.py:149-150 | the capacity is the encoder's maximum for the room left after the overhead |
| Capacity.LabelCapacityLoop | dns_proto.py:173-177 | the 64-byte-per-label loop computes LabelCapacity(room) |
| Capacity.LabelCapacityStep | dns_proto.py:173-177 | every full 64 bytes of room carries 63 payload bytes |
| Capacity.CalcMaxThroughputA | dns_proto.py:170-179 | the capacity of an A query is the encoder's maximum for the label capacity of the room left beside the hostname, minus the overhead |
| Capacity.CalcMaxThroughputCname | dns_proto.py:221-230 | the capacity of a CNAME answer is the encoder's maximum for the label capacity of max_length - 1, minus the overhead |
| Capacity.LabelCapacityIsLargest | dns_proto.py:170-179 | the label capacity is the largest payload length whose chunked form fits in the room |
| Capacity.FitsIffWithinCapacity | dns_proto.py:170-179 | a payload's chunked form fits in the room exactly when its length is at most the label capacity |
| Capacity.ChunkedLengthMonotone | dns_proto.py:158-163 | a longer payload gives a strictly longer chunked form |
| Capacity.EncodedChunkedLength | dns_proto.py:158-163 | the encoded packed payload is ChunkedLength(n) + 1 bytes long |
| Capacity.CnameCapacityExact | dns_proto.py:221-230 | a dot-free payload, the empty one included, fits the CNAME capacity exactly when its encoded packed name is at most max_length bytes |
| Capacity.ACapacityExact | dns_proto.py:170-179 | a dot-free payload, the empty one included, fits the A capacity exactly when the encoded packed name plus hostname is at most max_length bytes |
| Capacity.EncodedQueryNameLength | dns_proto.py:469-478 | the encoded query name of a packed payload and a hostname is ChunkedLength(n) + len(hostname) + 1 bytes long |
| Builders.Wire | dns_proto.py:192 | one answer is 12 + len(rdata) bytes, starts with the 0xC00C pointer and ends with the rdata |
| Builders.WireFields | dns_proto.py:192 | type, class, TTL and RDLENGTH sit big-endian at offsets 2, 4, 6 and 10 |
| Builders.WireAllLength | dns_proto.py:184-351 | the answer section is 12 bytes per answer plus the bytes of all rdata |
| Builders.Answers | dns_proto.py:184-351 | a builder's answer count is the number of records it built, with no additional records |
| Builders.BuildRecordA | dns_proto.py:184-194 | the loop returns exactly the count A answers of ARecords |
| Builders.BuildRecordAaaa | dns_proto.py:196-206 | the loop returns exactly the count AAAA answers of AaaaRecords |
| Builders.BuildRecordNs | dns_proto.py:208-219 | one answer whose rdata is the encoded host |
| Builders.BuildRecordCname | dns_proto.py:232-242 | the loop returns exactly the count CNAME answers of CnameRecords |
| Builders.BuildRecordMx | dns_proto.py:244-254 | the loop returns exactly the count MX answers of MxRecords |
| Builders.BuildRecordSrv | dns_proto.py:256-266 | the loop returns exactly the count SRV answers of SrvRecords |
| Builders.BuildRecordDnskey | dns_proto.py:268-277 | the loop returns exactly the count DNSKEY answers of DnskeyRecords |
| Builders.BuildRecordRrsig | dns_proto.py:279-290 | the loop returns exactly the count RRSIG answers of RrsigRecords |
| Builders.BuildRecordAny | dns_proto.py:293-302 | exactly two answers |
| Builders.SoaData | dns_proto.py:304-315 | the SOA rdata is the two encoded names plus 20 bytes |
| Builders.BuildRecordSoa | dns_proto.py:304-315 | one answer whose rdata is the SOA data |
| Builders.BuildRecordNull | dns_proto.py:317-327 | the loop returns exactly the count NULL answers of NullRecords |
| Builders.BuildRecordPrivate | dns_proto.py:329-339 | the loop returns exactly the count PRIVATE answers of PrivateRecords |
| Builders.BuildRecordTxt | dns_proto.py:341-351 | the loop returns exactly the count TXT answers of TxtRecords |
| Builders.AAnswersLength | dns_proto.py:184-194 | count A answers take 16 * count bytes |
| Builders.AaaaAnswersLength | dns_proto.py:196-206 | count AAAA answers take 28 * count bytes |
| Builders.NullAnswersLength | dns_proto.py:317-327 | NULL answers take 12 bytes each plus their items |
| Builders.PrivateAnswersLength | dns_proto.py:329-339 | PRIVATE answers take 12 bytes each plus their items |
| Builders.TxtAnswersLength | dns_proto.py:341-351 | TXT answers take 13 bytes each, counting the length byte, plus their items |
| Registry.Unimplemented | dns_proto.py:45-143 | a type that is only named has no builder, packer, unpacker or calculator |
| Registry.TableIncreasing | dns_proto.py:45-143 | the table's type codes are strictly increasing, so each code has one entry |
| Registry.TableNamesDistinct | dns_proto.py:45-143 | no two entries share a type name, so reverse lookups do not depend on iteration order |
| Registry.GetRRType | dns_proto.py:353-358 | the lookup succeeds exactly when the code is a key, and returns that key's entry |
| Registry.GetRRTypeAsWritten | dns_proto.py:353-358 | the code as written raises exactly where the intended lookup finds no key, and otherwise finds the same entry |
| Registry.GetRRTypeAsWrittenRaises | dns_proto.py:357 | for the reserved code 65535 the intended lookup gives None while the written code raises |
| Registry.GetRRTypeAt | dns_proto.py:353-358 | every table entry is found by its own code |
| Registry.ReverseRRType | dns_proto.py:360-365 | the lookup by name succeeds exactly when some entry has that name, and returns an entry of that name |
| Registry.ReverseRRTypeNum | dns_proto.py:367-372 | a nonzero result is the code of an entry with that name |
| Registry.ReverseRRTypeAt | dns_proto.py:360-372 | every entry is found by its own name, with its own code |
| Registry.GetReverseRRType | dns_proto.py:353-372 | looking up by code the code found by name gives the entry found by name; an unknown name gives 0 |
| Registry.FirstMatch | dns_proto.py:379-381 | the index found is the first zone record with that type name and short hostname; none means no record matches |
| Registry.GetRecord | dns_proto.py:375-383 | an unknown type gives no record; a record returned comes from the zone; none means no zone record matches |
| Messages.Header | dns_proto.py:465 | the header is 12 bytes and the six counts read back at offsets 0 to 10 |
| Messages.BuildRecordOpt | dns_proto.py:181-182 | the OPT record is the 11 bytes: root name, type 41, payload size 4096, DO bit set, zero RDLENGTH |
| Messages.QuestionWire | dns_proto.py:476-478 | the question is the encoded name plus 4 bytes |
| Messages.QueryMessage | dns_proto.py:469-478 | a query is 12 + encoded name + 4 bytes, plus 11 when EDNS is on |
| Messages.QueryMessageParts | dns_proto.py:469-478 | a query's header reads back the id, the query flags, one question and the EDNS value as the additional count; the question follows the header; with EDNS on the query ends with the OPT record, and with EDNS off it ends with the question |
| Messages.DnsProto.constructor | dns_proto.py:35-36 | EDNS starts off |
| Messages.DnsProto.SetEdns | dns_proto.py:146-147 | sets the EDNS field to the value |
| Messages.DnsProto.BuildQuery | dns_proto.py:469-478 | the query built from data + hostname is QueryMessage, with the object's EDNS value |
| Messages.Records | dns_proto.py:455-463 | the records a builder produces all fit their wire fields |
| Messages.BuildRecord | dns_proto.py:455-463 | dispatching through the registry returns the builder's answers |
| Messages.BuildAnswer | dns_proto.py:446-467 | the answer message is AnswerMessage |
| Parser.QuestionsFrom | dns_proto.py:480-498 | a successful parse has exactly nq questions |
| Parser.ReadQuestionAt | dns_proto.py:485-494 | a zero-length name is the bad-name failure, a short type or class field raises, otherwise the question is read at the name's end |
| Parser.ReadQuestionStep | dns_proto.py:485-494 | one question read equals ReadQuestion |
| Parser.ParseQuestions | dns_proto.py:480-498 | the loop returns QuestionsFrom(msg, 0, nq) |
| Parser.QuestionsLength | dns_proto.py:480-498 | a successful parse's consumed length stays within the message |
| Parser.ParseQuestionsAsWritten | dns_proto.py:480-498 | the code as written never returns the bad-name result |
| Parser.ParseQuestionsAsWrittenRaises | dns_proto.py:487 | on an empty message with one question, the intended code reports a bad name but the written code raises |
| Parser.ReadAnswerAt | dns_proto.py:505-520 | a zero-length name fails, short fixed fields raise, otherwise the answer is read at the name's end |
| Parser.ReadAnswerStep | dns_proto.py:505-520 | one answer read equals ReadAnswer |
| Parser.AnswersFrom | dns_proto.py:500-523 | a successful parse has exactly nq answers |
| Parser.ParseAnswers | dns_proto.py:500-523 | the loop returns AnswersFrom(msg, 0, nq) |
| Parser.Rcode | dns_proto.py:536 | the response code is the low four bits of the flags |
| Parser.ParseDns | dns_proto.py:525-546 | A message under 12 bytes raises, a message is rejected exactly when its rcode is neither 0 nor 3, and a parsed message holds the header's id and counts, the inverted QR bit, at least one question parsed from after the header, the original question bytes, and the answers parsed from after them. |
| Validator.IsValidDns | dns_proto.py:421-444 | a valid message is at least 17 + len(hostname) bytes and has exactly one question |
| Validator.IsValidDnsEndsWith | dns_proto.py:421-444 | a message is valid exactly when it is long enough, has one question and its decoded first name ends with the hostname |
| RoundTrip.ReadWire | dns_proto.py:505-520 | parsing one built answer gives back its name pointer, type, class, TTL and rdata, and advances past it |
| RoundTrip.AnswersOfWire | dns_proto.py:500-523 | parsing a built answer section with the right count gives back every record, consuming the whole section |
| RoundTrip.QuestionOfWire | dns_proto.py:480-498 | parsing a built question gives back the dot-terminated name, the type and class 1 |
| RoundTrip.MessageParts | dns_proto.py:537-541 | the question and answer parsers see the bytes after the header and after the question |
| RoundTrip.ParseFramed | dns_proto.py:525-546 | a message with an accepted rcode and one parsed question parses to its header fields, question bytes and answers |
| RoundTrip.ParseQuery | dns_proto.py:469-546 | parse_dns of build_query gives the transaction id, a query, the type, one question with the dot-terminated name, the question bytes and no answers |
| RoundTrip.AnswerMessageParts | dns_proto.py:446-467 | an answer message is a header (answer or no-record flags, one question, the answer count) plus the echoed question plus the answers |
| RoundTrip.ParseAnswer | dns_proto.py:446-546 | parse_dns of build_answer gives a response with the same id, type and question, and every built answer |
| RoundTrip.Exchange | dns_proto.py:446-546 | a server answering a parsed query with its id and question bytes produces a response the client parses to the same id, type and questions, carrying every built answer |
| RoundTrip.QueryName | dns_proto.py:421-478 | a built query has one question, is long enough, and its first name decodes to the dot-terminated query name |
| RoundTrip.QueryIsValid | dns_proto.py:421-478 | a built query passes is_valid_dns exactly when its dot-terminated name ends with the hostname |
| RoundTrip.ClientQueryIsValid | dns_proto.py:421-478 | a query for data + hostname, with the hostname ending in a dot, passes is_valid_dns for that hostname |
| RoundTrip.AFramed | dns_proto.py:184-194 | A answers carry their RDLENGTH correctly exactly when every address is 4 bytes |
| RoundTrip.AaaaFramed | dns_proto.py:196-206 | AAAA answers carry their RDLENGTH correctly exactly when every address is 16 bytes |
| RoundTrip.CnameFramed | dns_proto.py:232-242 | CNAME answers carry their RDLENGTH correctly |
| RoundTrip.MxFramed | dns_proto.py:244-254 | MX answers carry their RDLENGTH correctly |
| RoundTrip.SrvFramed | dns_proto.py:256-266 | SRV answers carry their RDLENGTH correctly |
| RoundTrip.DnskeyFramed | dns_proto.py:268-277 | DNSKEY answers carry their RDLENGTH correctly |
| RoundTrip.RrsigFramed | dns_proto.py:279-290 | RRSIG answers carry their RDLENGTH correctly |
| RoundTrip.ItemsFramed | dns_proto.py:317-351 | NULL, PRIVATE and TXT answers carry their RDLENGTH correctly |
| RoundTrip.RecordsFramed | dns_proto.py:184-351 | a builder's answers carry their RDLENGTH correctly exactly when the A/AAAA/ANY addresses have their fixed sizes |

## Left out

- `main.py`: the command-line driver, sockets, timeouts and console output are not part of this model.
- `time.time()`: the RRSIG builder takes the current time as a parameter `now`.
- Builders.RrsigRecords: both time stamps come from the one reading `now`. The code reads the clock twice, so the two stamps may differ by a second across a tick.
- `socket.inet_aton`: the ANY builder takes the address as bytes. `RoundTrip.RecordsFramed` states when those bytes frame correctly.
- `encoding_class.get_maximum_length` is code outside this class. It is a function parameter of the throughput calculators.
- The `response_codes` table is left out. It holds console messages, not results.
- `build_answer` with a record whose type name is not in the table indexes the 0 that `reverse_RR_type` returns and raises `TypeError`. `Messages.AnswerBuildable` excludes such records as a precondition.
- The commented-out block after `parse_dns` (dns_proto.py:548-594) is never executed and is not modelled.
- Exceptions raised by `struct.pack` on out-of-range fields are preconditions, with no exception path, wherever they can occur:
  - the builders (`Messages.BuilderAccepts`), including the `IndexError` of a record whose count exceeds its items;
  - `Names.HostnameToHostnamebin` and `Names.EncodeName`, where `Names.Encodable` excludes a label of 256 bytes or more (`struct.pack("B")` at dns_proto.py:392);
  - `Messages.DnsProto.BuildQuery`, where `IsU16` bounds the id, the type and the EDNS value (dns_proto.py:472 and 478);
  - `Messages.AnswerMessage`, where `IsU16` bounds the id and the answer count (dns_proto.py:465).
- Dictionary iteration order in `reverse_RR_type` and `reverse_RR_type_num` is not modelled. The table's names are distinct (`Registry.TableNamesDistinct`), so the order cannot change the result.
- The `hostname` argument of `parse_dns` is unused by the code. It is kept as an unused parameter.
- The dictionaries returned by the parsers are datatypes (`Questions`, `Answers`, `Message`), not Python dicts keyed by index and `"length"`.
- Parser.QuestionsLength: the total consumed length is stated as a bound within the message, not as a closed-form sum of name lengths plus 4. The exact value is given step by step by `Parser.QuestionsFrom`.
- Parser.AnswersFrom: the consumed length is given step by step only, with no bound. A clamped data slice lets it pass the end of the message.
- Compression pointers are detected and not followed, as in the code. The model does not cover decoding of third-party messages that use other pointer targets.

## Findings

| source | as written | input that shows it | evidently intended | confidence | as-written member | corrected member |
|---|---|---|---|---|---|---|
| dns_proto.py:487 | `ret = {length: -1}` uses the undefined name `length` as a key, so the bad-name path raises `NameError` | `parse_questions("", 1)`: the first name decodes to length 0 | `ret = {"length": -1}`, the bad-name result that `parse_answers` returns at line 507 | high, not executed | Parser.ParseQuestionsAsWritten (with Parser.ParseQuestionsAsWrittenRaises) | Parser.ParseQuestions |
| dns_proto.py:357 | `get_RR_type` reports an unknown code through `common.internal_print`, but `dns_proto.py` never imports `common`, so the call raises `NameError` | `get_RR_type(65535)` | print the error, or skip it, and return `None` as the next line does | medium, not executed | Registry.GetRRTypeAsWritten (with Registry.GetRRTypeAsWrittenRaises) | Registry.GetRRType |
