# A model of a command-line DNS client

`dnsClient.py` is a small DNS client. It builds one query for a name, asking for
an A, NS or MX record. It sends the query over UDP and retries up to a given
number of times. Then it decodes the response's header, Answer section,
Authority section and Additional section, and prints one line per record.

The client works on the message as a hexadecimal text, not as bytes. Byte k
of a message is text digits 2k and 2k + 1. Every offset in the program counts
digits, and every field is read with Python's `int(text[i:j], 16)` (or, for
the three counts, `int(text[i:j])`). The model keeps that representation:
a message is a `seq<Nibble>` (`Hex.Digits`). Python's clamped slicing,
`int(s, 16)` and `int(s)` are written out in `Hex.Slice`, `Hex.ParseHex` and
`Hex.ParseDecimal`. Each raises ValueError on an empty slice, and `int(s)`
also raises it on a digit a..f.

The model is made of these modules:

- `Errors`: the exceptions the program can raise (IndexError, ValueError,
  RecursionError, UnboundLocalError). Each decoding function returns a
  `Result`, and an uncaught exception ends the run with a `Crash` event.
- `Hex`: hexadecimal texts and the Python conversions on them.
- `Query`: `make_query`, which writes the header, QNAME, QTYPE and QCLASS.
- `Names`: `fetch_compressed` and the alias loop shared by the NS, CNAME and
  MX output functions. Each is a specification function and an imperative
  method proved equal to it.
- `Records`: `ip_output`, `ns_output`, `cname_output` and `mx_output`. Each
  returns the values of the line it prints.
- `Response`: the decoding half of `make_request`: the counts, the NOTFOUND
  test, RCODE, the AA and TC bits, and the three section loops.
- `Transport`: the retry loop.
- `Client`: the `DnsClient` class. Its attributes are fields that `input`,
  `make_query`, `set_number_of_records` and `make_request` update in place.
- `NameProperties`, `RecordProperties`, `ResponseProperties`: lemmas about the
  above.
- `WalkProperties`: one round of the Answer and Additional loops on a record a
  server wrote: the line it prints and where it leaves the cursor.

The program's output becomes a sequence of `Response.Event` values, one per
printed line. The model follows the code as written, including where it
departs from RFC 1035:

- Inside `fetch_compressed` a pointer's offset is used as a digit offset
  without being doubled.
- The name loop goes on reading after a pointer, instead of ending the name.
- `ip_output` prints only the first three octets of the address.
- The three counts are read in decimal.
- `an == 0 & ns == 0 & ar == 0` is a chained comparison that holds exactly
  when ANCOUNT is 0.
- A record whose CLASS is not IN makes the Answer loop `continue` without
  moving its cursor.
- The Authority loop runs ARCOUNT times, not NSCOUNT times.
- Every record's NAME is taken to be a two-byte pointer.

`fetch_compressed` follows pointers without checking their targets, so a
cyclic chain of pointers recurses until Python's recursion limit. The model
bounds the nesting with a `fuel` parameter and reports RecursionError when it
runs out. It does not reject pointers to later offsets, and it has no cap on
the number of hops.

## Model

| member | source | states |
|---|---|---|
| Client.DnsClient.constructor | dnsClient.py:19-26 | The request type starts as A, the three counts and the query length as 0, and auth_or_nonauth as "auth". The parsed -mx, -ns, -r and name arguments are kept. |
| Client.DnsClient.Input | dnsClient.py:28-32 | -mx selects MX, otherwise -ns selects NS, otherwise the type is unchanged. No other attribute changes. |
| Client.DnsClient.MakeQuery | dnsClient.py:190-237 | Returns the query text the query builder specifies and stores its length in query_length. With short labels that length is 2 * len(name) + 36. No other attribute changes. |
| Client.DnsClient.SetNumberOfRecords | dnsClient.py:184-187 | Reads the three counts in decimal, in order. A count that raises ValueError leaves itself and the counts after it unchanged. The ValueError is reported exactly when the counts cannot all be read. |
| Client.DnsClient.ReadResponse | dnsClient.py:265-317 | Prints what `Decode` specifies for the response. Leaves the three counts as `set_number_of_records` does (`CountsStored`): each count up to the first one that raises ValueError is set, and the rest keep their old values. Sets auth_or_nonauth from bit AA exactly when decoding gets past the count, NOTFOUND and RCODE checks, and otherwise leaves it unchanged. query_length and the request type are unchanged. |
| Client.DnsClient.ReadSections | dnsClient.py:318-381 | Called only with ANCOUNT above 0, which the NOTFOUND test ensures. Prints what `Sections` specifies: the Answer loop, then the Authority loop, then the Additional loop, each from the cursor the previous loop left. |
| Client.DnsClient.MakeRequest | dnsClient.py:239-317 | The whole run: the query, the retry loop, then the decoding of the response if one arrived. Leaves query_length equal to the query's length. When a response arrived, the counts and auth_or_nonauth end as `ReadResponse` leaves them for that response. When none arrived, the counts and auth_or_nonauth are unchanged. |
| Client.RunGivesUp | dnsClient.py:247-262 | When every attempt fails, the run prints one error per attempt and the give-up line, and nothing else. |
| Client.RunWithoutRetries | dnsClient.py:247-265 | With -r 0 or less nothing is sent, and reading the unassigned `data` ends the run with UnboundLocalError. |
| Client.RunNotFound | dnsClient.py:247-269 | A response with ANCOUNT 0 that arrives at attempt j ends the run with the j errors before it, the received line and NOTFOUND. |
| Hex.Slice | dnsClient.py:185 | Python slicing: clamped to the text, empty when the bounds cross, and every digit taken from the same place in the text. |
| Hex.ParseHex | dnsClient.py:49 | `int(s, 16)` succeeds exactly when s is not empty, and the value fits the number of digits. |
| Hex.ParseDecimal | dnsClient.py:185-187 | `int(s)` succeeds exactly when s is non-empty and holds only the digits 0..9. |
| Hex.FieldRoundTrip | dnsClient.py:219-221 | `hex(n).lstrip("0x").zfill(w)` for n below 16^w is exactly w digits and reads back as n. |
| Query.Split | dnsClient.py:216 | `split('.')` gives at least one part, and no part contains a dot. |
| Query.JoinSplit | dnsClient.py:216 | Joining the parts of a split with dots gives back the name. |
| Query.QType | dnsClient.py:224-229 | QTYPE is four digits with value 1 for A, 2 for NS and 15 for MX. |
| Query.HeaderLayout | dnsClient.py:194-212 | The header is 24 digits. It holds the ID, flags 0100 (only RD set), QDCOUNT 0001 and three zero counts. |
| Query.QueryLayout | dnsClient.py:212-234 | The query is the header, then QNAME from digit 24, then QTYPE and QCLASS 0001. |
| Query.QNameLength | dnsClient.py:216-222 | With lengths and characters below 256, QNAME takes 2 * len(name) + 4 digits. |
| Query.QueryLength | dnsClient.py:234-235 | With short labels, query_length is 2 * len(name) + 36. |
| Query.QNameOfAbc | dnsClient.py:216-222 | "abc" is written as 03 61 62 63 00. |
| Query.EncodeQName | dnsClient.py:216-222 | The QNAME loop writes exactly the QNAME of the name: for each dot-separated part, a length field and two digits per character, then 00. |
| Names.Byte | dnsClient.py:172 | A byte read from two digits is below 256. |
| Names.PointerBits | dnsClient.py:164-165 | The pointer test on the high digit holds exactly when bits 2 and 3 of that digit are both set. |
| Names.PointerTarget | dnsClient.py:167 | Masking with 0x3fff gives an offset below 0x4000. |
| Names.MaskKeepsLowBits | dnsClient.py:167 | On a 16-bit word, `& 0x3fff` is reduction modulo 0x4000. |
| Names.ReadLabel | dnsClient.py:175-177 | The character loop returns the characters `ReadChars` specifies, or the exception it raises. |
| Names.FetchCompressed | dnsClient.py:159-181 | The loop of fetch_compressed returns what the recursive `Fetch` specifies: pointers followed, segments joined with dots, the final dot stripped, and IndexError or RecursionError when they occur. |
| Names.DecodeAlias | dnsClient.py:103-120 | The alias loop returns what `Alias` specifies. Pointer offsets are doubled, and a dot is written after every segment except one that ends at digit 22 + 2 * RDLENGTH. |
| NameProperties.ByteIsValue | dnsClient.py:172 | `Byte` reads what `int(text[p:p+2], 16)` reads. |
| NameProperties.WordIsValue | dnsClient.py:167 | `Word` reads what `int(text[p:p+4], 16)` reads. |
| NameProperties.PointerIffTopBitsSet | dnsClient.py:164-165 | The client's pointer test holds exactly when the byte is 0xC0 or more, that is when its top two bits are set. |
| NameProperties.LabelsAt | dnsClient.py:162-179 | A name without pointers reads back as its segments, each followed by a dot. |
| NameProperties.QNameRoundTrip | dnsClient.py:159-181 | A well-formed name written by the query builder, anywhere in a text, is read back by fetch_compressed as the same name. |
| NameProperties.QuestionNameRoundTrip | dnsClient.py:159-181 | fetch_compressed at digit 24 of a query, or of a response that starts with the query, reads the queried name. |
| NameProperties.LabelsFuelMonotone | dnsClient.py:162-179 | A loop result other than RecursionError stays the same with a larger budget of nested calls. |
| NameProperties.FetchFuelMonotone | dnsClient.py:159-181 | The same for fetch_compressed as a whole. |
| NameProperties.SelfPointerExhaustsBudget | dnsClient.py:164-169 | A pointer to itself ends in RecursionError, whatever the budget. |
| NameProperties.NestedPointerNotDoubled | dnsClient.py:167-168 | The nested pointer C003 is followed to digit 3 and reads the empty name, not the name "a" at byte 3. |
| NameProperties.PointerDoesNotEndName | dnsClient.py:165-170 | After a pointer to "a", the loop goes on and reads the segment "b", giving "ab". |
| NameProperties.AliasOfPointer | dnsClient.py:109-111 | RDATA that is one pointer reads as fetch_compressed at twice the pointer's offset. |
| NameProperties.AliasOfQuestion | dnsClient.py:134-151 | RDATA C00C in a response that starts with the query reads as the queried name. |
| NameProperties.AliasAt | dnsClient.py:103-120 | RDATA holding segments without pointers reads as the segments joined by dots, followed by one dot for the root segment. |
| NameProperties.UncompressedAlias | dnsClient.py:103-120 | RDATA holding a name written without compression reads as that name followed by a dot. |
| Records.Ttl | dnsClient.py:49 | TTL is read exactly when the record reaches past digit 12, and is below 2^32. |
| Records.RdLength | dnsClient.py:101 | RDLENGTH is read exactly when the record reaches past digit 20, and is below 2^16. |
| Records.Preference | dnsClient.py:68 | PREFERENCE is read exactly when the record reaches past digit 24, and is below 2^16. |
| Records.ByteDecimal | dnsClient.py:44 | `str(n)` for a byte is one to three decimal digits, without a leading zero. `int()` reads it back as n. |
| Records.OctetsOfBytes | dnsClient.py:43-46 | The loop's three rounds write the first three bytes in decimal, separated by two dots. |
| Records.IpOutput | dnsClient.py:38-53 | ip_output returns what `IpRecord` specifies: three octets from `ans[-8:]`, or IndexError, then the TTL. |
| Records.NsOutput | dnsClient.py:97-126 | ns_output returns what `NsRecord` specifies: RDLENGTH, the alias loop from digit 24, then the TTL. |
| Records.CnameOutput | dnsClient.py:128-157 | cname_output returns what `CnameRecord` specifies, the same reads as ns_output. |
| Records.MxOutput | dnsClient.py:56-95 | mx_output returns what `MxRecord` specifies: RDLENGTH, PREFERENCE, the alias loop from digit 28, then the TTL. |
| RecordProperties.TtlExample | dnsClient.py:49 | A TTL field of 0000012C is 300 seconds. |
| RecordProperties.IpIndexError | dnsClient.py:40-44 | ip_output raises IndexError exactly when the record has four digits or fewer. |
| RecordProperties.IpOfOctets | dnsClient.py:40-46 | The address printed is the first three of the four bytes at the end of the record, in decimal. |
| RecordProperties.IpExample | dnsClient.py:40-46 | The address C0A80001 prints as 192.168.0. |
| RecordProperties.ARecord | dnsClient.py:38-52 | An A record prints the first three octets of its address and its TTL. |
| RecordProperties.NsRecordOfName | dnsClient.py:97-126 | An NS record with an uncompressed name prints that name with a trailing dot, and the TTL. |
| RecordProperties.CnameRecordOfQuestion | dnsClient.py:128-157 | A CNAME record whose RDATA is C00C prints the queried name, without a trailing dot, and the TTL. |
| RecordProperties.MxRecordOfName | dnsClient.py:56-95 | An MX record with an uncompressed exchange prints the exchange with a trailing dot, the preference and the TTL. |
| Response.Counts | dnsClient.py:184-187 | The counts are read exactly when all three fields exist and hold only the digits 0..9. |
| Response.BitAnd | dnsClient.py:267 | Python's `&` on naturals is no larger than either operand. |
| Response.RecordEnd | dnsClient.py:327-328 | The next record's start is computable exactly when RDLENGTH exists. |
| Response.NextRecord | dnsClient.py:327-347 | Computes `end_ans + 1` as `RecordEnd` specifies it. |
| Response.OutputRecord | dnsClient.py:337-345 | The if-chain on TYPE calls the output function `Dispatch` names, or none. |
| Response.AnswerRecord | dnsClient.py:325-347 | One Answer round, as `AnswerStep` specifies: a CLASS other than IN is reported and the cursor stays. |
| Response.WalkAnswers | dnsClient.py:321-347 | The Answer loop prints and advances as `Answers` specifies, and stops at the first exception. |
| Response.SkipAuthority | dnsClient.py:350-357 | The Authority loop moves the cursor as `Skip` specifies. |
| Response.AdditionalRecord | dnsClient.py:363-381 | One Additional round, as `AdditionalStep` specifies: CLASS is not checked, and an unknown TYPE is reported. |
| Response.WalkAdditionals | dnsClient.py:360-381 | The Additional loop prints and advances as `Additionals` specifies. |
| Response.IterateStop | dnsClient.py:325-347 | After an exception, further rounds change nothing. |
| ResponseProperties.CountsReadAsDecimal | dnsClient.py:184-187 | The count field 0010 is read as ten, not sixteen. |
| ResponseProperties.CountsFailWithValueError | dnsClient.py:184-187 | A failed count read is always ValueError, and the run then prints only that crash. |
| ResponseProperties.HexDigitInCountCrashes | dnsClient.py:185-187 | A digit a..f anywhere in the count fields makes the run crash with ValueError. |
| ResponseProperties.NotFoundIffNoAnswers | dnsClient.py:267 | The NOTFOUND test holds exactly when ANCOUNT is 0, whatever NSCOUNT and ARCOUNT are. |
| ResponseProperties.NoAnswersIsNotFound | dnsClient.py:265-269 | A response with ANCOUNT 0 prints NOTFOUND and nothing else. |
| ResponseProperties.RcodeDecides | dnsClient.py:287-322 | With answers present, RCODE 1, 2, 4 or 5 prints its error, 3 prints NOTFOUND, 6 and above print nothing, and only 0 goes on to the sections, after the TC warning when TC is set. Each case holds in both directions. |
| ResponseProperties.ShortResponseCrashes | dnsClient.py:184-187 | A response of 20 digits or fewer crashes with ValueError when its counts are read. No other field is looked at first. |
| ResponseProperties.AnswersAtMostOnePerRecord | dnsClient.py:325-347 | The Answer loop prints at most one line per round. |
| ResponseProperties.AdditionalsOnePerRecord | dnsClient.py:363-381 | An Additional loop that ends without an exception prints exactly one line per record. |
| ResponseProperties.AnswerStepCursor | dnsClient.py:331-347 | An Answer round leaves the cursor on its record or moves it to the next one. |
| ResponseProperties.AnswersMoveForward | dnsClient.py:325-347 | The Answer loop never moves the cursor back, and keeps it on whole bytes. |
| ResponseProperties.BadClassStalls | dnsClient.py:331-334 | Once a record's CLASS is not IN, every later round reports the same class code and the cursor never moves. |
| ResponseProperties.SkipMovesForward | dnsClient.py:352-357 | Each skipped Authority record advances the cursor by at least 24 digits, and by whole bytes. |
| ResponseProperties.AuthorityLoopCountsAdditional | dnsClient.py:350-357 | The output does not depend on NSCOUNT beyond its being non-zero. With ARCOUNT 0, the Authority loop skips nothing. |
| WalkProperties.RecordAt | dnsClient.py:325-337 | For a record a server wrote where the cursor stands, the loop reads the record's TYPE and CLASS fields. It reads the record's whole text. The next record starts right after its RDATA. |
| WalkProperties.DispatchAt | dnsClient.py:337-345 | The if-chain on TYPE calls ip_output, ns_output, mx_output or cname_output exactly when the TYPE field holds 1, 2, 15 or 5, and calls nothing for any other TYPE. |
| WalkProperties.AnswerStepAt | dnsClient.py:325-347 | An Answer round at a record whose fields are known: with CLASS 1 it prints the selected output and moves to the next record; with any other CLASS it reports that class code and stays. |
| WalkProperties.AnswerStepOfRecord | dnsClient.py:325-347 | The same for a record laid out as section 4.1.3 of RFC 1035 with a pointer NAME: with CLASS IN the round prints the record's output and moves the cursor 24 digits plus the length of its RDATA. |
| WalkProperties.AdditionalStepOfRecord | dnsClient.py:363-381 | An Additional round on such a record prints its output whatever its CLASS, or reports its TYPE code as unknown. The cursor moves past its RDATA. |
| WalkProperties.AnswersNextRecord | dnsClient.py:325-347 | When the first i Answer rounds leave the cursor on a record of CLASS IN that prints a line, round i + 1 adds exactly that line and moves past the record. |
| WalkProperties.AnswerShowsLine | dnsClient.py:325-347 | An Answer round on a record of CLASS IN whose output function returns a line prints that one line and moves past the record. |
| WalkProperties.AnswerA | dnsClient.py:325-347 | An A record in the Answer section prints its address line and moves the cursor 32 digits. |
| WalkProperties.AnswerNs | dnsClient.py:325-347 | An NS record with an uncompressed name prints the name with a trailing dot, and moves the cursor past the name. |
| WalkProperties.AnswerMx | dnsClient.py:325-347 | An MX record with an uncompressed exchange prints the mail exchange line, and moves the cursor past the preference and the exchange. |
| WalkProperties.AnswerCname | dnsClient.py:325-347 | A CNAME record pointing at the question name prints the alias line, and moves the cursor 28 digits. |
| Transport.Failures | dnsClient.py:258-259 | The errors for attempts i + 1 to j, one per attempt, in order. |
| Transport.Transmit | dnsClient.py:247-262 | The retry loop prints and ends as `Retry` specifies. |
| Transport.NeverTriedIffNoRetries | dnsClient.py:247 | The loop never runs exactly when -r is 0 or less, and then prints nothing. |
| Transport.FirstReplyWins | dnsClient.py:247-257 | The first attempt that brings a response ends the loop, after the errors of the earlier attempts. |
| Transport.AllFail | dnsClient.py:258-262 | When every attempt fails, each prints its error, and the loop gives up after the last. |
| Transport.GivesUpIffAllFail | dnsClient.py:258-262 | The loop gives up exactly when all of the -r attempts fail. |
| Transport.ReceivedFromAnAttempt | dnsClient.py:252-257 | A response the loop ends with is the response of one of the first -r attempts. |

## Left out

- The command-line parser (dnsClient.py:7-17). Its result is given to the
  `DnsClient` constructor. The -t timeout, -p port and server are not used by
  anything the model covers.
- The socket, `time.time()` and the measured time in the "Response received"
  line. What the network does on each attempt is a parameter: `Attempt`
  values, one per attempt. The response is given as the hexadecimal text that
  `data.hex()` produces.
- `random.getrandbits(16)`: the query ID is a parameter below 2^16.
- The prints of `input` (dnsClient.py:34-36) and the exact text of every
  printed line. The model records which line is printed and the values in it
  (`Response.Event`, `Records.Line`), not its formatting.
- The RA check (dnsClient.py:273-276). `temp & 0` is always 0, so its message
  is never printed. Its read of `data[6]` cannot fail either: the counts were
  read before it, and reading them needs more than 20 digits.
- Python's recursion limit: `fetch_compressed`'s nested calls are bounded by
  the `fuel` parameter. RecursionError stands for the limit's
  exception, whatever the actual depth.
- `chr` of a value is modelled for the values two hex digits can hold. Python
  text encodings are not modelled.
- Client.DnsClient.MakeQuery: the length 2 * len(name) + 36 is stated only for
  names whose labels and characters fit two hex digits. Longer ones are
  written with more digits, as the code does, and only `queryLength ==
  |query|` is stated for them.
