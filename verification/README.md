# iperf3: a verified model

iperf3 measures the throughput between a client and a server. This project models four parts of the
vendored sources under `iperf/src` and proves what they promise, for all inputs and all runs.

**The JSON layer (cjson.c).** `JsonValue` has the values that trees denote, `JsonRender` the text of a value and
`JsonGrammar` what each parsing function reads at an offset. `JsonReader` and `JsonPrinter` are the parser and the printer
as objects with an offset, a depth and a buffer. They build and walk linked items (`JsonTree`), and each method is proved
against the grammar or the rendering. `JsonRoundTrip` proves that printing and then parsing gives the value back.
`JsonString` and `Utf8` hold the two passes over strings and the escapes. `JsonList` has the operations on child lists,
`JsonCompare` and `JsonItems` comparing and copying, and `JsonChannel` the length-prefixed trees of iperf_api.c.

**Timers (timer.c, iperf_time.c).** `TimerQueue` is the sorted, doubly linked list with its free list and the loop that
runs due timers, over the clock arithmetic of `IperfTime`.

**The control protocol (iperf_server_api.c, iperf_client_api.c, iperf_api.c, iperf_tcp.c).** `ControlProtocol` has both
sides as processes that take turns in any order, with traffic and other clients in between. `ControlRuns` has the inductive
invariant and the ranking, and `ControlTheorems` what follows for whole runs, `ControlFairness`
for runs without end. `ControlParties` has the handlers as methods of
objects, each doing what one step of its process does, and `ControlNet` puts a client and a server together and lets any
schedule call them. `ControlWire` and `ControlBytes` take the messages down to the bytes
of the connection, through the JSON layer.

**Traffic (iperf_api.c, iperf_tcp.c, iperf_udp.c).** `TrafficLedger` has the counters, intervals and the omit period as a
ledger with events, `Traffic` the sending, receiving and throttling methods that produce those events, and `UdpCount` the
sequence numbers of UDP.

What the proofs found about the code:

- `cJSON_Compare` is symmetric and transitive on all trees, but reflexive only on those whose objects give one key one
  meaning (`JsonCompare.CompareLaws`); an object with a repeated key need not equal its own copy.
- Taking the last item off a list whose tail is cached leaves the cache pointing to the item taken off. This happens in no
  other case (`JsonList.DetachItem`), and the next item appended is then lost (`JsonList.AddItem`,
  `JsonList.AppendAfterDetach`).
- Until the omit period is over, the intervals outside it fall short of what a stream has sent by exactly the bytes of the
  omitted ones (`TrafficLedger.Accounting`).
- `bytes_received` of the test, unlike `bytes_sent`, is not reset at the end of the omit period. It exceeds what the streams
  have on their accounts by exactly the bytes from before that and those that came too late
  (`TrafficLedger.ReceivedTotal`, with an input in `TrafficLedger.OmittedBytesStay`).
- With duplicated UDP packets `cnt_error` can be too low, never too high, and `UdpCount.ErrorsFallShort` says by how much.
- A periodic timer that is late fires again in the same call of `tmr_run` exactly if it lands behind the timer that fires
  next, and in time; otherwise it stays due (`TimerQueue.TimerQueue.Run`, with an input in `TimerQueue.LateTimer`). If no
  timer is a whole period late, each fires at most once and none stays due.

## Model

| member | source | states |
|---|---|---|
| JsonRoundTrip.PrintThenParse | iperf/src/cjson.c:1372-1443 | parsing the printed text of any printable value up to 1000 levels deep, formatted or not, gives the value and consumes the whole text; doubles that are no exact integers are taken by their printed text |
| JsonRoundTrip.ValueRoundTrip | iperf/src/cjson.c:1317-1369 | the same wherever the text stands in a buffer and however deep: the parser reads the value and stops right behind it |
| JsonGrammar.ParsedHeight | iperf/src/cjson.c:1446-1453 | no accepted tree, together with the levels around it, is more than 1000 levels deep |
| JsonReader.ParseBuffer.ReadValue | iperf/src/cjson.c:1317-1369 | succeeds exactly when the grammar does, at the same end inside the buffer, with the depth restored, and builds new items that denote the value read |
| JsonReader.ParseBuffer.SkipWhitespace | iperf/src/cjson.c:1043-1066 | stops at the first byte above 32, or, stepping back, on the terminator |
| JsonReader.ParseBuffer.ReadArray | iperf/src/cjson.c:1446-1537 | the new items of an accepted array form one doubly linked list of distinct items, in order, and share no descendants |
| JsonReader.ParseBuffer.ReadObject | iperf/src/cjson.c:1602-1708 | the same for objects, with every key on its item |
| JsonReader.ParseBuffer.ReadString | iperf/src/cjson.c:778-904 | both passes of a string: accepted exactly when it is closed and decodes, with the decoded bytes up to the first NUL |
| JsonReader.DecodeBody | iperf/src/cjson.c:824-882 | no write of the second pass leaves the buffer that the first pass sized |
| JsonReader.ParseWithOpts | iperf/src/cjson.c:1084-1177 | on every NUL-terminated text: a new tree, no item of which stands in it twice, for the value of the document and its end, or none |
| JsonString.DecodedFits | iperf/src/cjson.c:791-822 | for every string body the decoded bytes fit in the body less its escape introducers, even where the two passes fall out of step |
| JsonString.StepFitsRoom | iperf/src/cjson.c:824-882 | each decoding step writes at most the bytes it consumes less the introducers among them |
| JsonString.EscapedRoundTrip | iperf/src/cjson.c:907-1026 | scanning and decoding the escaped form of any NUL-free string gives the string |
| JsonString.LiteralIsUtf8 | iperf/src/cjson.c:657-775 | an escape of a character of the basic plane becomes the one UTF-8 encoding (section 4 of RFC 3629) of it |
| JsonString.SurrogateLiteralIsUtf8 | iperf/src/cjson.c:657-775 | two escapes of surrogates are accepted exactly as a high and a low one, and become the one encoding of the code point they denote |
| Utf8.EncodingDecodes | iperf/src/cjson.c:715-771 | the encoder's bytes decode to the code point |
| Utf8.EncodingIsUnique | iperf/src/cjson.c:715-771 | no other bytes decode to it |
| Utf8.SurrogatePairs | iperf/src/cjson.c:700-702 | surrogate pairs map into 0x10000..0x10FFFF and can be recovered |
| Utf8.SurrogatesOf | iperf/src/cjson.c:700-702 | every code point of that range has its pair |
| JsonNumber.DecimalRoundTrip | iperf/src/cjson.c:554-617 | the decimal text of an exact integer is a whole number token with that value |
| JsonNumber.OtherSpellings | iperf/src/cjson.c:312-386 | 1.0 and 1e5 are read as the exact integers 1 and 100000 |
| JsonPrinter.PrintBuffer.Ensure | iperf/src/cjson.c:446-531 | succeeds if and only if the requests it makes are granted and the size can be reached; what was printed is kept through a reallocation or a copy, and there is room |
| JsonPrinter.PrintBuffer.UpdateOffset | iperf/src/cjson.c:534-544 | catches the offset up with the NUL that ends what was printed |
| JsonPrinter.PrintBuffer.PrintValue | iperf/src/cjson.c:1372-1443 | appends exactly the rendering at the current depth and a NUL, keeps the bytes before it and the depth; succeeds if and only if every request for memory was granted and the limit of the buffer leaves room |
| JsonPrinter.PrintBuffer.PrintStringPtr | iperf/src/cjson.c:907-1026 | the quoted and escaped text, in the space that counting the escapes reserved, under the same condition |
| JsonPrinter.PrintBuffer.PrintArray | iperf/src/cjson.c:1540-1599 | the elements in order between brackets, through any number of reallocations |
| JsonPrinter.PrintBuffer.PrintObject | iperf/src/cjson.c:1711-1822 | the members in order between braces, indented by depth when formatted |
| JsonPrinter.Print | iperf/src/cjson.c:1192-1254 | the rendering and one NUL, in a block of just that size, if and only if every request for memory was granted and the sizes stay within SIZE_MAX; so always with an allocator that never refuses |
| JsonPrinter.PrintPreallocated | iperf/src/cjson.c:1297-1314 | succeeds if and only if the buffer holds the text and two bytes more, for every tree and both formats |
| JsonList.AddItem | iperf/src/cjson.c:1953-1993 | appends and caches the tail on both forms of lists; with a stale tail, and only then, the item is lost |
| JsonList.GetItem | iperf/src/cjson.c:1848-1865 | the item at an index or none |
| JsonList.InsertItem | iperf/src/cjson.c:2263-2290 | inserts before the item at an index, with or without a stale head, and appends as AddItem does beyond the end |
| JsonList.DetachItem | iperf/src/cjson.c:2193-2221 | removes exactly that item; exactly when the list is well formed afterwards, and where a stale head points |
| JsonList.DetachAt | iperf/src/cjson.c:2223-2231 | the same by index, or nothing |
| JsonList.AppendAfterDetach | iperf/src/cjson.c:2193-2231 | three items appended, the second taken off before the third: the third is lost |
| JsonCompare.CompareDoubleIsExact | iperf/src/cjson.c:547-551 | the tolerance makes no two different exact integers equal |
| JsonCompare.CompareIsEquality | iperf/src/cjson.c:2952-3075 | two trees compare equal if and only if both are coherent and mean the same, with objects as maps |
| JsonCompare.CompareLaws | iperf/src/cjson.c:2952-3075 | symmetric, transitive, and reflexive exactly on coherent trees |
| JsonCompare.LookupIsFirst | iperf/src/cjson.c:1877-1907 | looking a key up finds the first member with it, in the chosen sense of case |
| JsonCompare.DistinctIsCoherent | iperf/src/cjson.c:3041-3069 | trees with distinct keys (after case folding where case does not count) are coherent |
| JsonCompare.DuplicateKeysBreakReflexivity | iperf/src/cjson.c:3041-3069 | a tree with a repeated key that does not equal itself |
| JsonItems.GetObjectItem | iperf/src/cjson.c:1877-1907 | the walk along the children finds the first matching key |
| JsonItems.CompareItems | iperf/src/cjson.c:2952-3075 | the comparison of items is that of the values, for trees that share no item, or are coherent |
| JsonItems.Duplicate | iperf/src/cjson.c:2676-2753 | a deep copy consists of new items only and denotes the same value |
| JsonItems.CopyAndCompare | iperf/src/cjson.c:2676-2753 | a deep copy compares equal to its source if and only if the source is coherent |
| JsonChannel.FrameRoundTrip | iperf/src/iperf_api.c:2443-2505 | the reader of a frame takes exactly its bytes and gets the tree back, whatever follows |
| JsonChannel.JsonWrite | iperf/src/iperf_api.c:2443-2464 | sends the frame of the value, if and only if the requests that printing made were granted |
| JsonChannel.JsonRead | iperf/src/iperf_api.c:2469-2505 | a new tree for the first frame of the bytes, or none when it is cut short or does not parse |
| IperfTime.AddUsecs | iperf/src/iperf_time.c:73-81 | adds exactly, carrying into the seconds, modulo the 32 bits of the seconds |
| IperfTime.CompareIsOrder | iperf/src/iperf_time.c:103-115 | comparing the fields is comparing the times |
| IperfTime.Diff | iperf/src/iperf_time.c:125-156 | the distance of two times, with borrow, and which is earlier |
| TimerQueue.TimerQueue.ListAdd | iperf/src/timer.c:60-96 | the new timer goes behind all that are due no later; the list stays linked, sorted and first in, first out |
| TimerQueue.TimerQueue.ListRemove | iperf/src/timer.c:99-107 | only that timer leaves the list, which stays linked and sorted |
| TimerQueue.TimerQueue.ListResort | iperf/src/timer.c:110-117 | after a change of its deadline a timer gets the place of a new one |
| TimerQueue.TimerQueue.Create | iperf/src/timer.c:120-150 | a timer from the free list, or a new one, in its place; nothing happens without memory |
| TimerQueue.TimerQueue.Timeout | iperf/src/timer.c:153-173 | the time from now to the earliest deadline, 0 when it has passed, none without timers |
| TimerQueue.TimerQueue.Run | iperf/src/timer.c:176-199 | terminates; the timers that fire are exactly those due at entry, in the order of deadlines and of arrival; one-shots once, then on the free list; each firing is a whole number of periods after the first; a periodic timer fires again if and only if it lands behind the one that fires next, and in time; which timers are still due; no timer is lost |
| TimerQueue.TimerQueue.OnlyOutrun | iperf/src/timer.c:184-197 | the timers still due on return are those that landed in front of the next one at their last firing |
| TimerQueue.TimerQueue.NoneLate | iperf/src/timer.c:184-197 | if every due periodic timer is due again only after now, each fires at most once and none stays due |
| TimerQueue.LateTimer | iperf/src/timer.c:184-197 | builds a queue with a timer of period 1 that is late by four periods; the call of its callback is the only one, and it is still due |
| TimerQueue.TimerQueue.Fire | iperf/src/timer.c:191-197 | a fired timer is rescheduled behind itself or cancelled, and the timer that was next is still next |
| TimerQueue.MovedTo | iperf/src/timer.c:191-195 | rescheduling by a positive period keeps the place of the walk and brings the list closer to now |
| TimerQueue.InsertedOrdered | iperf/src/timer.c:60-96 | sorted and first in, first out is kept by insertion |
| TimerQueue.TimerQueue.Reset | iperf/src/timer.c:202-211 | due a period from now, behind timers due at the same time |
| TimerQueue.TimerQueue.Cancel | iperf/src/timer.c:214-223 | moves exactly one timer to the head of the free list |
| TimerQueue.TimerQueue.Cleanup | iperf/src/timer.c:226-236 | empties the free list and leaves the pending timers alone |
| TimerQueue.TimerQueue.Destroy | iperf/src/timer.c:239-245 | no timer is left on either list |
| ControlTheorems.Safety | iperf/src/iperf_server_api.c:110-240 | in every run no side reads a message of a kind it does not expect or reaches an error branch; other clients get ACCESS_DENIED, once each and nothing else, and never become streams |
| ControlTheorems.Completion | iperf/src/iperf_server_api.c:688-748 | no run has more than 16 steps of the test and two for each stream, and it has that many if and only if both sides are done |
| ControlTheorems.CanComplete | iperf/src/iperf_client_api.c:253-294 | from every state of a run both sides can be brought to IPERF_DONE, with no step but theirs and the turning away of clients already there |
| ControlTheorems.EveryRunCompletes | iperf/src/iperf_client_api.c:608-628 | however a run goes on without traffic and new clients, it makes no more than a bounded number of steps, and when it can make none, and only then, both sides are done |
| ControlTheorems.StaysEnabled | iperf/src/iperf_server_api.c:481-790 | a step of the test that is possible stays so until it is taken, whatever the other side, traffic and other clients do |
| ControlTheorems.NextStaysEnabled | iperf/src/iperf_server_api.c:543-553 | the same for turning away another client that the test waits for |
| ControlFairness.FairRunsEnd | iperf/src/iperf_server_api.c:481-790 | every run without end in which no step of the two sides is put off for ever comes to a point where both are done, whatever traffic there is and however many other clients come |
| ControlTheorems.QuietUnlessFinal | iperf/src/iperf_client_api.c:525-645 | some step other than traffic is possible if and only if not both sides are done |
| ControlTheorems.StreamsCorrespond | iperf/src/iperf_server_api.c:645-651 | in each mode, at each moment, the k-th stream has one id at both ends, opposite roles, and an id that no other stream has |
| ControlTheorems.ResultsAgree | iperf/src/iperf_api.c:2344-2405 | when both are done, both hold the same bytes sent after the omit period and the same bytes received for each stream |
| ControlRuns.StepKeeps | iperf/src/iperf_server_api.c:535-570 | the invariant: each channel holds exactly what one side has sent and the other has not read, and the queue the connections not yet counted |
| ControlRuns.RemainingFalls | iperf/src/iperf_client_api.c:237-329 | each step of the test brings its end nearer by one, and no other step changes the distance |
| ControlRuns.NeverStuck | iperf/src/iperf_client_api.c:525-640 | while a side is not done, a step of the test is possible, or another client can be turned away first |
| ControlRuns.Exchange | iperf/src/iperf_api.c:2281-2432 | taking in the other side's results finds every stream, changes only what the side did not measure itself, and leaves its own report as it was |
| ControlParties.Streams.Add | iperf/src/iperf_api.c:4186-4204 | the stream comes last with the id 1, or two more than the streams before it |
| ControlParties.Streams.GetResults | iperf/src/iperf_api.c:2344-2405 | the loops over results and streams do what the process does |
| ControlParties.ClientTest.CreateStreams | iperf/src/iperf_client_api.c:55-122 | opens and dials the streams one by one |
| ControlParties.OpenRestIsOpens | iperf/src/iperf_client_api.c:64-119 | the loop is a run of single steps of the process |
| ControlNet.Net.Act | iperf/src/iperf_server_api.c:543-748 | a call of a handler, if there is something for it to do, takes the two programs through exactly the steps of the processes that it stands for |
| ControlNet.Net.Play | iperf/src/iperf_client_api.c:525-645 | any schedule of calls takes them through a run |
| ControlNet.Test | iperf/src/iperf_server_api.c:418-800 | whatever the schedule, no handler of either program fails, and when both are done their stream lists agree |
| ControlWire.ParamsRead | iperf/src/iperf_api.c:1975-2167 | mode and number of streams survive the JSON of the parameters, among any other settings |
| ControlWire.ResultsRead | iperf/src/iperf_api.c:2174-2432 | ids and byte counts of all streams survive the JSON of the results |
| ControlWire.MessagesRoundTrip | iperf/src/iperf_api.c:1633-1643 | reading the kinds in the order they were sent takes a run of messages apart at the right places |
| ControlBytes.ReadsWhatWasSent | iperf/src/iperf_api.c:2443-2505 | in every run each read makes out of the bytes before it the message that was sent, and leaves the rest |
| TrafficLedger.Accounting | iperf/src/iperf_api.c:3004-3118 | after any history bytes_sent of the test is the sum of what its senders sent since the omit period, and the intervals fall short of each stream's count by exactly the omitted bytes until the omit period is over; so they make it up if and only if it is over or recorded no bytes |
| TrafficLedger.ApplyKeeps | iperf/src/iperf_api.c:3040-3118 | each send, receive, interval and end of the omit period keeps every account balanced |
| TrafficLedger.OmittedBytesAreMissing | iperf/src/iperf_api.c:3040-3118 | a history in which the intervals do not make up the count |
| TrafficLedger.ReceivedTotal | iperf/src/iperf_api.c:3011-3024 | bytes_received of the test exceeds the receivers' counts by the bytes from before the end of the omit period and the late ones, so it is their sum if and only if there were none |
| TrafficLedger.OmittedBytesStay | iperf/src/iperf_api.c:3011-3024 | a history in which it is not |
| Traffic.Stream.Send | iperf/src/iperf_tcp.c:88-116 | what the kernel takes of the pending block is counted, once, and the rest stays pending |
| Traffic.Stream.Receive | iperf/src/iperf_tcp.c:60-81 | counts only while the test is running |
| Traffic.Stream.CheckThrottle | iperf/src/iperf_api.c:1646-1664 | the light is green if and only if the stream is below its rate |
| Traffic.BelowRate | iperf/src/iperf_api.c:1655-1657 | the comparison of whole bits per second decides just that |
| Traffic.Test.Send | iperf/src/iperf_api.c:1707-1765 | every send is an event of a writable sender in the ledger, and every throttled stream stays within a burst of its rate, checked before the next call |
| Traffic.Test.Receive | iperf/src/iperf_api.c:1768-1786 | each readable receiver is read once, in order, unless an error ends the test; the receives are events of the ledger, during the test on the account of the receiver, later on that of the test alone |
| Traffic.Test.StatsCallback | iperf/src/iperf_api.c:3040-3118 | ends one interval of every stream |
| Traffic.Test.EndOmit | iperf/src/iperf_api.c:3004-3030 | resets the counts of every stream |
| Traffic.Test.Run | iperf/src/iperf_api.c:1707-1847 | for turns in any order with a clock that does not run backwards, at the time of the last turn: 8 * bytes_sent <= rate * elapsed + 8 * blksize * max(1, burst) for every throttled sender of a test that was not done, all accounts balanced, and in the log of each turn only what that turn does |
| UdpCount.NeverTooManyErrors | iperf/src/iperf_udp.c:142-171 | whatever arrives, packet_count is the highest number and cnt_error at most the numbers missing |
| UdpCount.ErrorsAreLosses | iperf/src/iperf_udp.c:142-171 | without duplicates cnt_error is exactly the numbers missing |
| UdpCount.ErrorsFallShort | iperf/src/iperf_udp.c:142-171 | in general, by exactly how much it differs |
| UdpCount.DuplicatesHideLosses | iperf/src/iperf_udp.c:158-171 | a duplicate that makes it too low |
| UdpCount.OutOfOrderIsOvertaken | iperf/src/iperf_udp.c:158-162 | outoforder_packets counts the arrivals behind a higher number |
| UdpCount.UdpStream.Receive | iperf/src/iperf_udp.c:86-171 | the counters after each packet are those of the numbers received |
| UdpCount.UdpStream.Send | iperf/src/iperf_udp.c:213-257 | numbers rise by one for each attempt, so no number is sent twice |
| UdpCount.LossesEndToEnd | iperf/src/iperf_udp.c:142-171 | between sender and receiver, through a network that loses and reorders but does not duplicate, errors and arrivals make up the numbers to the highest |

## Left out

- JsonRoundTrip.PrintThenParse: takes a double that is no integer below 10^15 by the token that `print_number` makes of it, in the form that `%1.15g` or `%1.17g` gives; which of the tokens of 16 and 17 digits in that form are the shortest for their double, and what double `strtod` makes of other spellings of fractions, is not modelled.
- JsonReader.ParseWithOpts: does not model the position reported on an error, allocation failures of items, or parsing of buffers without NUL.
- JsonPrinter.Print: does not model `cJSON_Raw` items, NaN and infinities, or a prebuffer of size 0.
- JsonItems.Duplicate: does not model the flags `cJSON_IsReference` and `cJSON_StringIsConst`, or allocation failures.
- JsonList.AddItem: requires an item that is not already in the list, as the header asks, and a head whose prev does not point inside the list; `cJSON_Replace*` and `cJSON_Minify` are not part of this model.
- JsonChannel.FrameRoundTrip: is for texts below 2^32 bytes, the range of the length field.
- JsonCompare.CompareIsEquality: is for values whose numbers are exact integers, since the comparison of other doubles is floating point.
- TimerQueue.TimerQueue.Run: is for callbacks that leave the timers alone, for positive periods, and for deadlines that 32-bit seconds can hold; callbacks that reset or cancel timers are not part of this model.
- TimerQueue.TimerQueue.Create: excludes deadlines at which the 32-bit seconds would wrap around; `IperfTime.AddUsecs` says what happens there.
- ControlTheorems.Safety: is for one TCP test without faults: no broken connections, timeouts, terminate messages, SERVER_ERROR or authorization; the client of the test is whoever connects first, and every other client sends a whole cookie, which differs from its own. (`iperf_tcp_accept` fails, and the server ends the test, when a cookie cannot be read, iperf/src/iperf_tcp.c:134-137.) With multipath, no delay, a segment size or a socket buffer size the server closes its listener and opens another (iperf/src/iperf_tcp.c:173-178); other clients that were queued on the old one are then dropped without ACCESS_DENIED, and the count of them holds only without these settings.
- ControlTheorems.EveryRunCompletes: that the end condition is met, and that a step that stays possible is taken some time, is up to the environment.
- ControlTheorems.ResultsAgree: is for a single test, since the server does not reset every setting between tests.
- ControlWire.ResultsRead: does not model the measures besides id and bytes, which may be any values with their names, nor the `valueint` of a number that is no exact integer.
- ControlWire.MessageRoundTrip: settings other than number of streams and direction stand for any members with other names.
- Traffic.Test.Run: times are real numbers and the double arithmetic of the rate is taken as exact; every check needs a positive elapsed time.
- UdpCount.UdpStream.Receive: counters do not wrap; jitter is floating point and not modelled.
- Sockets, select, sendfile, getsockopt, TCP_INFO, DNS, daemon, signals and PID files are foreign calls; reads and writes are steps or nondeterministic results.
- SCTP, UDP connection set-up, file transfers, option parsing, report texts, unit formatting, entropy, RSA and base64 are not part of this model.
- `iperf_check_total_rate`, retransmits and the other fields from TCP_INFO would only add easy members.
