# Verified model of the uplink receiver

The repository receives LTE uplink data: transport blocks are demultiplexed by MAC, their packets are
reassembled by RLC in acknowledged mode and handed up, and NAS messages are taken out of them, all on a
pool allocator of its own.  Beside this chain it holds a JSON reader and writer, an asynchronous logger,
a codec for uplink grants and a tracker of periodic accesses.  This project states what these parts do
and proves it for all inputs and all runs.

Each part is written in the form of its source.  Objects whose fields change are classes, loops that
fill buffers are methods with invariants, and each of them is proved equal to a function of its inputs
and its old state.  The main results are lemmas about those functions.

| file | part |
|---|---|
| `Bytes.dfy`, `Bits.dfy` | octets, sequences, powers of two |
| `IntrusiveList.dfy`, `MemPool.dfy` | the doubly linked list; the pool with its joins |
| `RlcCodec.dfy`, `RlcFormat.dfy` | AMD PDUs, read and written; which octets are one and what they mean |
| `RlcReassembly.dfy`, `RlcEndToEnd.dfy`, `RlcRuns.dfy` | the reassembler over whole runs; segmentation undone; any octet strings received |
| `RlcEntity.dfy`, `RlcPduDecoder.dfy`, `RlcReceiver.dfy` | the AM entity on pool blocks, with the ownership of every block |
| `BlockOwners.dfy`, `RlcLayer.dfy`, `RlcStack.dfy` | who owns which block; the RLC layer as an object |
| `MacDemux.dfy`, `MacFormat.dfy`, `Uplink.dfy` | MAC PDUs; which octets are one and what they mean; from transport blocks to SDUs |
| `MacToRlc.dfy`, `LayerRuns.dfy` | indications in pool blocks; whole runs of reception and deletion from an empty pool |
| `JsonText.dfy`, `JsonString.dfy`, `JsonValue.dfy`, `JsonCodec.dfy`, `JsonParser.dfy`, `JsonPrinter.dfy` | cJSON: strings, values, numbers, and both parser and printer on their buffers |
| `JsonGrammar.dfy`, `JsonStrings.dfy`, `JsonAccepts.dfy`, `JsonRfc.dfy`, `JsonRoundTrip.dfy` | the texts of JSON by a grammar; the parser accepts exactly them; all texts of RFC 8259 are among them; what is printed is laid out as one |
| `LogRing.dfy` | the ring of log blocks |
| `Dci0.dfy`, `Dci0Format.dfy` | DCI format 0 and its resource indication; the place of every field |
| `PerNas.dfy`, `RrcMessages.dfy` | NAS messages in unaligned PER; whole RRC messages, field by field |
| `TargetTracker.dfy`, `TrackerReports.dfy` | the tracker of periodic accesses; what it reports and when |

## What is assumed

- Pool lengths are 16 bits wide (ulp/inc/mempool.h:75-76), so a join of 65536 bytes or more loses length, and
  the callers of `MemJoin` keep their pointer when it fails (ulp/src/lteRlc.c:855-860).  The pool therefore has a
  monitor, `exact`, which `MemJoin` clears exactly when its arguments were not two live buffers, the sum was too
  long, or there was no room (`MemPool.JoinIsExact`).  The RLC claims follow a run up to the first such join.
- `memcpy` in `MemJoin` (ulp/src/mempool.c:251) is read as a copy of a snapshot.
- PDCP takes over every buffer it is given; a zero-size SDU, which ulp/src/ltePdcp.c:23-26 drops without a
  free, counts as taken over.
- Memory behind a buffer that the source may read (a PDU without its end, the E/LI list) is a parameter: a
  function or a sequence of any content.  Behind the bit buffer of the NAS parser the 64-bit layout is taken: four
  octets of padding, which are 0 in a static record, and the pointer, least octet first (ulp/inc/asn1Lib.h:117-121).
- A number in JSON is a 64-bit pattern, and its text is that of any codec that reads back what it shows.  Such a
  codec exists (`JsonCodec.CodecExists`).
- Critical sections, and each pool operation, are one step.

## Where the code differs from what one would expect

- `calcRbByRiv` tests `>=` where TS 36.213 section 8.1.1 means a run that leaves the band: a run that ends with the
  last resource block, in the first form, does not decode to itself (`Dci0.RivRoundTrip` gives the exact condition).
- An SDU goes up with the first ten measurements of its own pieces if and only if its first piece starts clean: it
  comes with a measurement and is not a START inside the window of an unfinished SDU, or comes without one and finds
  the list empty.  Otherwise it carries measurements of an SDU that was abandoned (`RlcReassembly.OwnMeasurements`,
  with instances in `RlcReassembly.StaleReportGoesUp` and `RlcReassembly.StaleOutsideWindow`).
- For a message of the largest size, the last octet of a NAS message can take in octets behind the bit buffer.  No
  result depends on an earlier message.  In a connection setup complete the address of the buffer shows exactly when
  the NAS message is accepted and ends behind the padding (`PerNas.AddressShows`, with an instance in
  `PerNas.LongestShows`); in the other two messages it never does.
- The subheader of an unknown MAC channel is skipped but not counted as header, so that the header count is right
  exactly when no channel was unknown (`MacDemux.HeaderCountIsExact`).  Header and payload are compared with the
  length of the PDU only at an SDU that comes last.  `MacDemux.WhenPiecesInside` says exactly when all pieces lie inside the
  PDU; `MacDemux.PiecesOutside` has a PDU of each kind in which they do not.
- For a preallocated print cm/inc/cJSON.h:152 advises five bytes more than the text needs; one more than text and
  terminator is needed and enough (`JsonPrinter.Print`).
- `\u` with octets behind it that are not four hexadecimal digits is read as the code 0 (cm/src/cJSON.c:545-574 returns
  0 for them).  When a backslash is among them, the quote behind it counts as escaped for the end of the string but as
  a character of its own in it (`JsonGrammar.StrOk` describes exactly these strings).
- Infinities and NaNs are printed as `null` and read back as null (`JsonRoundTrip.ParseInvertsPrint`).
- A log record can be dropped although it would fit: when five blocks are closed and the writer's estimate does not fit
  the sixth.  That block is then closed too (`LogRing.WriteAppends`).

## Model

| member | source | states |
|---|---|---|
| RlcReassembly.DeliversExactly | ulp/src/lteRlc.c:813-1013 | for every run of received elements: an SDU is delivered at an element if and only if it is one FULL element or a START, MIDs with successive numbers and an END with the number of the last held piece or the next one, not disturbed in between |
| RlcReassembly.ExplainedIsDelivered | ulp/src/lteRlc.c:836-1013 | every such group of pieces is what the reassembler holds when its last piece arrives |
| RlcReassembly.DeliveriesAreDisjoint | ulp/src/lteRlc.c:836-1013 | no received element serves two delivered SDUs |
| RlcReassembly.ReceiveAppend | ulp/src/lteRlc.c:813-833 | working off a queue of elements in two parts is working it off at once |
| RlcReassembly.ReportsFit | ulp/src/lteRlc.c:864-904 | the ten places for measurements suffice, held or delivered |
| RlcReassembly.OwnMeasurements | ulp/src/lteRlc.c:836-1013 | over every run: a delivered SDU has the first ten measurements of its own pieces if its first piece starts clean (a FULL or a START outside the window, with a measurement; or any, without one, that finds the list empty), and has not otherwise, when the measurements of the run differ |
| RlcReassembly.ReportsCame | ulp/src/lteRlc.c:864-1001 | every measurement in the list came with an element received before |
| RlcReassembly.StaleReportGoesUp | ulp/src/lteRlc.c:934-943 | inside the window: an SDU goes up with a measurement of another one |
| RlcReassembly.StaleOutsideWindow | ulp/src/lteRlc.c:944-1001 | outside the window, without a measurement: the same for a START and for a FULL |
| RlcRuns.DeliveredAre | ulp/src/lteRlc.c:813-1013 | all deliveries of any run: each is what one group of pieces spells, the groups are apart and in order, none is left out, and those that start clean have their own measurements |
| RlcRuns.ReceiveAllIsRun | ulp/src/lteRlc.c:306-833 | feeding octet strings to the entity is the run over the elements in them |
| RlcRuns.AirDeliversExactly | ulp/src/lteRlc.c:306-1013 | the same for whatever octet strings arrive, PDUs or not |
| RlcCodec.HeaderRoundTrip | ulp/src/lteRlc.c:444-467 | the two octets of a header without RF read back for all field values |
| RlcCodec.SegmentHeaderRoundTrip | ulp/src/lteRlc.c:444-481 | the four octets of a header with RF, LSF and SO read back for all field values |
| RlcCodec.HeaderReadsAsSent | ulp/src/lteRlc.c:444-481 | conversely, every data header is the encoding of the fields it is read as |
| RlcCodec.LiRoundTrip | ulp/src/lteRlc.c:587-664 | the reader with alternating 0 and 4 bit offsets inverts the 12-bit packing for every list of 1 to 256 non-zero 11-bit lengths, and the header size is 2 + ceil(12k/8) |
| RlcCodec.BytesBeyondDoNotMatter | ulp/src/lteRlc.c:594-664 | what lies in memory beyond the PDU never changes the outcome of the list reader |
| RlcCodec.SplitExact | ulp/src/lteRlc.c:667-727 | splitting fails exactly when the lengths sum to more than the data; otherwise k+1 elements of those lengths make up the data |
| RlcCodec.SplitInverts | ulp/src/lteRlc.c:667-727 | splitting a concatenation at its lengths gives its parts |
| RlcFormat.DecodeMeans | ulp/src/lteRlc.c:393-768 | for every octet string: it is taken for a PDU if and only if it is a data PDU without RF whose E/LI list ends, has no zero and fits, and then number, framing and pieces are those at the places its octets give |
| RlcFormat.NoPdu | ulp/src/lteRlc.c:306-491 | nothing, one octet, a control PDU, and every PDU segment (RF set) leave the entity as it is and nothing goes up |
| RlcFormat.ZeroLength | ulp/src/lteRlc.c:594-664 | a zero length indicator anywhere in the list drops the PDU |
| RlcFormat.LengthsTooLong | ulp/src/lteRlc.c:667-727 | so do lengths that sum to more than the data |
| RlcEndToEnd.PduRoundTrip | ulp/src/lteRlc.c:444-768 | decoding an encoded AMD PDU gives its pieces, labelled as the framing info means |
| RlcEndToEnd.ReassemblyInvertsSegmentation | ulp/src/lteRlc.c:306-1013 | every cutting and concatenating of non-empty SDUs into PDUs with consecutive numbers is undone: each SDU once, in order, and the unfinished prefix is held |
| RlcEndToEnd.GrantedIsDelivered | ulp/src/lteRlc.c:306-1013 | PDUs with as many bytes as the queue has deliver all its SDUs, and nothing is held |
| IntrusiveList.List.PushTail | ulp/src/list.c:169-184 | appends to the sequence, links and count consistent |
| IntrusiveList.List.PushHead | ulp/src/list.c:187-202 | prepends to the sequence |
| IntrusiveList.List.PopHead | ulp/src/list.c:205-219 | removes the first element, whose links are cleared |
| IntrusiveList.List.DeleteNode | ulp/src/list.c:222-308 | takes any node: a member is removed and its links are cleared; of the others, one that stands amid another list is taken out of that list with 0 returned and this count one too low, and any other is refused with 1 and nothing changed |
| IntrusiveList.List.ListDeleteNode | ulp/src/list.c:115-146 | removes a member found by search and clears its links; a node that is no member changes nothing |
| MemPool.ConfigAscends | ulp/inc/mempool.h:21-53 | the configured classes grow, which is what the allocator relies on |
| MemPool.Pool.constructor | ulp/src/mempool.c:71-98 | all blocks are laid out, free, on the lists of their classes |
| MemPool.PicksSmallest | ulp/src/mempool.c:118-167 | an allocation comes from the smallest fitting class with a free block and fails only when every fitting class is empty |
| MemPool.Pool.MemAlloc | ulp/src/mempool.c:132-167 | takes that block, which was free, and marks it live; nothing else changes; every block stays either live or on the free list of its class |
| MemPool.Pool.MemFree | ulp/src/mempool.c:188-208 | a live block returns to its class; null, foreign and free addresses change nothing |
| MemPool.Pool.MemJoin | ulp/src/mempool.c:235-275 | two distinct live buffers become one that starts with the bytes of the first and then the second, in all three placements; null exactly without room; the monitor drops exactly for an inexact join |
| MemPool.JoinedInSecond | ulp/src/mempool.c:250-255 | joining into the second buffer keeps both contents in order and one block fewer is live |
| MemPool.Pool.MemRemove | ulp/src/mempool.c:278-305 | removes exactly the clipped range and keeps the rest in order |
| MemPool.SpareOrLive | ulp/src/mempool.c:132-208 | every block that fits a request is spare for it or live |
| RlcPduDecoder.GetConcatenationHeaderInfo | ulp/src/lteRlc.c:594-664 | the loop reads exactly the list of `ReadLis`, or fails with it |
| RlcPduDecoder.DecodeAndEnqueue | ulp/src/lteRlc.c:667-727 | the splitter queues the labelled pieces in buffers of their own, or frees everything; for want of memory only when few blocks were spare |
| RlcPduDecoder.ConcatenatedMeans | ulp/src/lteRlc.c:587-727 | reading the list and splitting is what decoding the PDU means |
| RlcPduDecoder.DecodeAmdPdu | ulp/src/lteRlc.c:494-585 | a decoded PDU is the specified one in live blocks; every failure branch frees the buffer and all it allocated |
| RlcEntity.JoinedPieces | ulp/src/lteRlc.c:855-895 | the held SDU after a join fills its buffer and starts with the concatenated pieces |
| RlcEntity.RxAmEntity.ReassembleFirst | ulp/src/lteRlc.c:965-1013 | moves as `First`, with every block accounted for |
| RlcEntity.RxAmEntity.ReassembleInCmp | ulp/src/lteRlc.c:836-962 | moves as `InCmp`; the monitor drops exactly when a join was due and not exact |
| RlcEntity.RxAmEntity.ReassembleQueue | ulp/src/lteRlc.c:813-833 | moves as `Receive`; delivered SDUs are the first bytes of the buffers handed up, and no other block changes |
| RlcReceiver.ReceiveDataPdu | ulp/src/lteRlc.c:370-441 | a data PDU moves the entity as `ReceiveBytes` unless it is lost for want of memory; every ring slot is free and null before and after, so the branch for further segments is unreachable; a PDU segment changes neither the entity nor what went up |
| BlockOwners.PduAccounted | ulp/src/lteRlc.c:370-441 | after a PDU every live block again has exactly one owner |
| BlockOwners.BlocksAddUp | ulp/src/lteRlc.c:250-282 | the number of owned blocks is the sum over contexts, entities, held SDUs, delivered buffers and packets in flight |
| RlcLayer.PduDone | ulp/src/lteRlc.c:370-441 | the invariant of the layer is kept by a PDU, and only the state of its channel changes |
| RlcLayer.PacketMade | ulp/src/lteMac.c:798-843 | a fresh block in flight keeps the invariant and changes no channel |
| RlcLayer.EntityMade | ulp/src/lteRlc.c:143-167 | a new entity starts empty and the invariant is kept |
| RlcLayer.EntityGone | ulp/src/lteRlc.c:170-187 | deleting an entity frees it and its held SDU, no other channel changes |
| RlcLayer.ContextGone | ulp/src/lteRlc.c:98-111 | deleting a UE context frees one block and no channel changes |
| RlcLayer.LiveBlocks | ulp/src/lteRlc.c:250-282 | nothing leaks: live blocks are counted exactly by contexts, entities, held SDUs, delivered buffers and packets in flight |
| RlcStack.Layer.RlcProcessAMRxPacket | ulp/src/lteRlc.c:306-441 | one packet: refused, through its channel, or lost only when the pool's fitting blocks are nearly used up; its buffer is consumed in every case |
| RlcStack.Layer.RlcDecodeAmdHeader | ulp/src/lteRlc.c:444-491 | null and short buffers fail, others read as `DecodeHeader` |
| RlcStack.Layer.MacUeDataInd | ulp/src/lteRlc.c:250-282 | a whole indication: all its blocks are consumed, no others in flight change, and without loss every packet went through its channel in turn; a loss means that blocks were scarce |
| RlcStack.ProgressMade | ulp/src/lteRlc.c:264-277 | after each packet of an indication the layer is where the packets so far lead |
| RlcStack.Layer.RlcDeleteUeContext | ulp/src/lteRlc.c:98-111 | the entities of a UE, what they hold and its context are freed; everything else stays |
| MacDemux.ParseAccounts | ulp/src/lteMac.c:250-391 | for any memory, as equalities: the octets read are the header octets counted and one for each unknown subheader, and the length is the recorded payload, the payload without an entry, the end padding and the rest |
| MacDemux.HeaderCountIsExact | ulp/src/lteMac.c:272-391 | the header count is the start of the payload if and only if no subheader named an unknown channel |
| MacDemux.WhenPiecesInside | ulp/src/lteMac.c:402-639 | exactly when all pieces lie inside the PDU: behind a last SDU, when unknown subheaders are no more than the octets without an entry; else, when octets read and lengths recorded fit |
| MacDemux.PiecesOutside | ulp/src/lteMac.c:492-639 | three PDUs with a piece outside: by an unknown channel, by end padding, by a control element |
| MacDemux.InsideIsOwn | ulp/src/lteMac.c:667-795 | when the pieces lie inside, nothing behind the PDU shows in them |
| MacDemux.DemuxInvertsEncode | ulp/src/lteMac.c:250-843 | every well-formed PDU (SDUs on channels 0 to 10; power headroom, C-RNTI, truncated, short and long buffer status with their 1, 2, 1, 1 and 3 octets on channels 26 to 30; leading or trailing padding) yields exactly its SDUs and control elements in order, whatever follows in memory |
| MacFormat.DemuxMeans | ulp/src/lteMac.c:250-795 | for any memory and length: accepted if and only if subheaders of the six kinds stand there whose claims meet the conditions of the code, and then the pieces are exactly those claimed |
| MacDemux.UlSchDecoder.MacProcessSdu | ulp/src/lteMac.c:402-489 | one SDU subheader: claimed, recorded, or refused |
| MacDemux.UlSchDecoder.MacProcessCe | ulp/src/lteMac.c:492-590 | one control element |
| MacDemux.UlSchDecoder.MacProcessPaddingLch | ulp/src/lteMac.c:593-639 | padding in front and at the end |
| MacDemux.UlSchDecoder.MacCalculateSubHeaderLength | ulp/src/lteMac.c:642-664 | the 7 and 15 bit lengths |
| MacDemux.UlSchDecoder.ProcessSubheaders | ulp/src/lteMac.c:272-391 | the loop over the subheaders is `Parse` |
| MacDemux.UlSchDecoder.MacDeMultiplexAndSend | ulp/src/lteMac.c:667-795 | CCCH messages and RLC packets are the pieces of their channels, in order |
| MacDemux.MacProcessUlSchPdu | ulp/src/lteMac.c:250-399 | decoding and demultiplexing together; nothing is sent on when decoding fails |
| MacToRlc.MacDeMultiplexAndSend | ulp/src/lteMac.c:667-843 | the indication in pool blocks of its own: without a failed allocation it carries exactly the packets of the PDU in order; a failed one means that every fitting block was in use |
| MacToRlc.ReceiveBlock | ulp/src/lteMac.c:250-399 | a transport block from MAC to PDCP: nothing stays in flight, and without a loss its packets went through their channels in turn |
| LayerRuns.Run | ulp/src/lteRlc.c:98-282 | every sequence of received PDUs and deleted UEs from an empty pool: after each event the layer is sound, nothing is in flight, and the event did what it should |
| LayerRuns.TraceIsCourse | ulp/src/lteRlc.c:98-282 | without losses, the channels and what went up are those of the reassembly functions over the whole run |
| LayerRuns.CourseIsThrough | ulp/src/lteRlc.c:264-277 | without deletions, these are those of all packets of the run in turn |
| LayerRuns.LiveAre | ulp/src/lteRlc.c:98-282 | between the events of a run the live blocks are exactly contexts, entities, held SDUs and delivered buffers |
| Uplink.IndicationIsArrivals | ulp/src/lteRlc.c:264-277 | an indication is its packets, one after the other |
| Uplink.ChannelsAreSeparate | ulp/src/lteRlc.c:306-441 | each channel's state and SDUs are those of its own packets alone |
| Uplink.OthersAreSilent | ulp/src/lteRlc.c:264-303 | from channels above 2 nothing goes up, over any packets |
| Uplink.DeletedIsSilent | ulp/src/lteRlc.c:344-351 | for a UE about to be deleted no packet moves anything |
| Uplink.ReceivedIsSent | ulp/src/lteMac.c:250-843 | through encoding and demultiplexing each of the channels 1 to 10 gets exactly what was sent on it, and no other octets go to the RLC layer |
| Uplink.CcchIsSent | ulp/src/lteMac.c:667-795 | the CCCH messages are exactly the SDUs of channel 0 |
| Uplink.UplinkRoundTrip | ulp/src/lteMac.c:250-843 | SDUs cut into AMD PDUs that travel in any MAC PDUs among other traffic come out once each and in order |
| JsonText.StringRoundTrip | cm/src/cJSON.c:698-946 | every string reads back from its printed form, wherever that stands |
| JsonText.Utf16ReadsScalar | cm/src/cJSON.c:577-695 | every Unicode scalar value written as one or two escapes is read as its UTF-8 octets |
| JsonText.Utf8Inverts | cm/src/cJSON.c:637-687 | the encoding is invertible, minimal and marked as section 3 of RFC 3629 says |
| JsonString.StepFits | cm/src/cJSON.c:744-802 | each step of the second pass stays within what the first pass counted, even where they disagree |
| JsonString.DecodedFits | cm/src/cJSON.c:711-802 | whatever the text, the decoded string fits the allocation |
| JsonString.ReadString | cm/src/cJSON.c:698-824 | parse_string: every write is inside the sized buffer, and the result is `ParseString` |
| JsonString.Utf16LiteralToUtf8 | cm/src/cJSON.c:577-695 | the octets written and the bytes consumed, or a failure with nothing written |
| JsonString.WriteUtf8 | cm/src/cJSON.c:667-690 | the loop from the last octet back writes the UTF-8 form |
| JsonString.LengthIsExact | cm/src/cJSON.c:854-881 | the precomputed length of an escaped string is exactly what is written |
| JsonString.WriteString | cm/src/cJSON.c:882-943 | the quoted text and its terminator, and nothing beyond |
| JsonCodec.CodecExists | cm/src/cJSON.c:266-538 | what is assumed of the text of numbers holds of a codec |
| JsonStrings.StringReads | cm/src/cJSON.c:698-824 | every spelling of a string, with any escapes, is read as what it means, wherever it stands |
| JsonStrings.StringFound | cm/src/cJSON.c:698-824 | and whatever is read as a string is such a spelling |
| JsonAccepts.SyntaxReads | cm/src/cJSON.c:1212-1603 | every spelling of a value, with any white space, is read as what it means, or refused if it is nested too deeply |
| JsonAccepts.SpelledParses | cm/src/cJSON.c:1000-1077 | every text of the grammar parses to what it means, exactly when it is nested at most 1000 deep |
| JsonAccepts.AcceptsExactly | cm/src/cJSON.c:1000-1603 | a text is accepted as a whole, with a given value, if and only if the grammar spells it so |
| JsonRfc.RfcTextParses | cm/src/cJSON.c:1000-1603 | every text of RFC 8259, in whatever white space and spelling, parses to what it means up to the nesting limit |
| JsonRoundTrip.PrintIsLaidOut | cm/src/cJSON.c:1267-1717 | what is printed, formatted or not, is the text of the grammar with exactly this white space and these escapes, and means the value |
| JsonRoundTrip.ParseInvertsPrint | cm/src/cJSON.c:1000-1717 | formatted or not, parsing a print gives the value back exactly when it is nested at most 1000 deep, and fails otherwise |
| JsonRoundTrip.ValueReads | cm/src/cJSON.c:1212-1717 | a printed value is read back wherever it stands in a text, the position is right behind it, and it is refused exactly when it is nested too deeply for what is left of the limit |
| JsonParser.ParseBuffer.SkipWhitespace | cm/src/cJSON.c:963-981 | stops at the first byte above 32, or on the last byte |
| JsonParser.ParseBuffer.ParseArray | cm/src/cJSON.c:1341-1432 | the loop collects the children in order, with the limit on nesting |
| JsonParser.ParseBuffer.ParseObject | cm/src/cJSON.c:1497-1603 | the same for keys and values |
| JsonParser.ParseBuffer.ParseValue | cm/src/cJSON.c:1212-1264 | parses exactly what the grammar function says, and moves behind it |
| JsonParser.ParseWithOpts | cm/src/cJSON.c:1000-1077 | the byte order mark, surrounding white space and the demand for nothing behind the value |
| JsonPrinter.PrintBuffer.Ensure | cm/src/cJSON.c:373-458 | the room asked for, with what was printed kept; refused exactly without room in a preallocated buffer, or beyond INT_MAX |
| JsonPrinter.PrintBuffer.UpdateOffset | cm/src/cJSON.c:461-471 | the position moves exactly behind what was printed |
| JsonPrinter.PrintBuffer.PrintArray | cm/src/cJSON.c:1435-1494 | writes the specified text within its reservations, and restores the depth |
| JsonPrinter.PrintBuffer.PrintObject | cm/src/cJSON.c:1606-1717 | the same, with indentation |
| JsonPrinter.PrintBuffer.PrintValue | cm/src/cJSON.c:1267-1338 | the buffer holds the text of the value behind what was there, terminated |
| JsonPrinter.Print | cm/src/cJSON.c:1087-1209 | the whole text; a preallocated buffer suffices exactly when it is at least two bytes longer than the text |
| LogRing.WriteAppends | cm/src/logger.c:504-608 | a record is appended whole or dropped without a trace in the stream, and dropped exactly when six blocks are full, or five and the estimate does not fit the sixth |
| LogRing.DrainTakesOldest | cm/src/logger.c:241-252 | the thread writes out the oldest bytes, and finds none only when nothing is pending |
| LogRing.RunIsFifo | cm/src/logger.c:211-256 | over every interleaving: written out plus pending is accepted, in order |
| LogRing.SevenTurnsSuffice | cm/src/logger.c:222-256 | when the writers pause, at most seven turns write everything out |
| LogRing.BlocksStayBelow | cm/src/logger.c:514-608 | over every run: when the estimates are not too low, blocks stay below the configured size and the longest record |
| LogRing.RingCloses | cm/src/logger.c:514-521 | marking the current block full keeps the blocks from read to write exactly the full ones |
| LogRing.AsyncLog.WriteRecord | cm/src/logger.c:497-616 | both writers, on the ring |
| LogRing.AsyncLog.WriteOut | cm/src/logger.c:211-256 | the thread waits exactly when nothing is pending, and else releases a full block or empties the current one |
| Dci0.RivParts | ulp/src/dci0.c:34-41 | the value of a run is N(L-1)+start, or N(N-L+1)+N-1-start when L-1 exceeds half of N |
| Dci0.RivInRange | ulp/src/dci0.c:34-41 | every run in the band has a value below N(N+1)/2 |
| Dci0.RivInjective | ulp/src/dci0.c:34-41 | different runs have different values |
| Dci0.RivSurjective | ulp/src/dci0.c:34-41 | every value below N(N+1)/2 belongs to a run |
| Dci0.RivRoundTrip | ulp/src/dci0.c:21-41 | decoding gives the run back exactly when start+L < N or L-1 > floor(N/2) |
| Dci0.ReadBack | ulp/src/dci0.c:17-18 | of fields or-ed into a word one behind the other each reads back, cut to its width |
| Dci0.EncodeDci0 | ulp/src/dci0.c:177-335 | encodeDci0 field by field with its running offset is the packed word, and the reported length |
| Dci0.DecodeDci0 | ulp/src/dci0.c:44-174 | decodeDci0 field by field |
| Dci0.DciRoundTrip | ulp/src/dci0.c:44-335 | for all six bandwidths, FDD and TDD, hopping or not, a message that fits decodes to itself exactly when its allocation survives |
| Dci0.UnhoppedFits | ulp/src/dci0.c:34-41 | without hopping every run fits the field |
| Dci0.NothingBeyond | ulp/src/dci0.c:177-335 | no bit is set beyond the reported length |
| Dci0Format.EncodesAsWord | ulp/src/dci0.c:177-335 | every message, fitting or not, for all bandwidths, FDD and TDD, hopping or not: the word is the sum of its fields, each cut to its width and with its weight |
| Dci0Format.TwentyMegahertz | ulp/src/dci0.c:177-335 | in 20 MHz FDD: riv from bit 17, MCS from 12, NDI at 11, TPC from 9, DMRS from 6, CQI request at 5 |
| Dci0Format.DecodesByPlaces | ulp/src/dci0.c:44-174 | every word is decoded to the bits at these places and to the run its indication stands for; one with the format flag set changes nothing |
| Dci0Format.SizesAreStandard | ulp/src/dci0.c:192-313 | the indication has as few bits as hold every run, and the reported length is the size of format 1A |
| PerNas.NasRoundTrip | ulp/src/asn1Lib.c:151-194 | a NAS message of 1 to 12756 bytes is found again at any bit position |
| PerNas.UlInfoRoundTrip | ulp/src/asn1.c:67-86 | through a whole UL information transfer message |
| RrcMessages.OtherKindAccepted | ulp/src/asn1Lib.c:66-104 | a transfer message of another kind is accepted without contents |
| RrcMessages.SetupCompleteRoundTrip | ulp/src/asn1Lib.c:305-435 | every connection setup complete, with or without registered MME, PLMN and country code, with two or three digits of network code, parses to the fields it was made of and its NAS message |
| RrcMessages.ConnReqRoundTrip | ulp/src/asn1Lib.c:1292-1338 | every connection request parses to its S-TMSI or random value of 40 bits and its cause |
| RrcMessages.NasAccepted | ulp/src/asn1Lib.c:160-187 | a NAS message is accepted exactly when it has 1 to 12756 octets and at most seven of its bits are missing |
| RrcMessages.FragmentsRefused | ulp/src/asn1Lib.c:164-187 | a fragmented one is refused |
| PerNas.AddressNeverShows | ulp/src/asn1.c:67-130 | transfer messages and connection requests of any size depend on the message alone |
| PerNas.AddressShows | ulp/src/asn1Lib.c:151-194 | a connection setup complete depends on where the buffer lies if and only if its NAS message is accepted and ends behind the padding |
| PerNas.OnlyTheLongest | ulp/src/asn1Lib.c:178-187 | only a message of the largest size does |
| PerNas.LongestShows | ulp/src/asn1Lib.c:178-187 | and there is one |
| PerNas.Asn1.Bits2Value | ulp/src/asn1Lib.c:136-149 | the or-ing loop gives what is read, whatever octets stand there: of bits the number they make |
| PerNas.Asn1.ConvertBytesToBits | ulp/src/asn1Lib.c:107-129 | every bit of the message at its place, the rest of the buffer untouched |
| PerNas.Asn1.UnpackDedicatedInfoNas | ulp/src/asn1Lib.c:151-194 | both length forms, the checks and the failure value of the bit count |
| PerNas.Asn1.Asn1ParseUlInfoTransMsg | ulp/src/asn1.c:67-86 | whatever was parsed before, the result is a function of the message, and the shared buffer is clear again |
| PerNas.Asn1.Asn1ParseRrcSetupComplMsg | ulp/src/asn1.c:88-108 | the same for connection setup complete, with the registered MME and the address of the buffer |
| PerNas.Asn1.Asn1ParseRrcConnReqMsg | ulp/src/asn1.c:110-130 | the same for the connection request |
| TargetTracker.Run | dpe/src/UeLoginInfoReceiver.cpp:145-328 | after any messages and clock checks: a target has at least 3 accesses, similar at first and 1, 2 or 3 intervals apart; candidates have 1 or 2 and exist only without a target; misses are at most min(2, size/2) |
| TargetTracker.TrackValid | dpe/src/UeLoginInfoReceiver.cpp:239-280 | a hit, a miss or the loss of the target keeps this |
| TargetTracker.SearchValid | dpe/src/UeLoginInfoReceiver.cpp:282-326 | matching, adding and clearing candidates keeps this |
| TargetTracker.LocksOn | dpe/src/UeLoginInfoReceiver.cpp:211-328 | three similar accesses in their windows become the target, with ideal times, and are reported |
| TrackerReports.CheckIs | dpe/src/UeLoginInfoReceiver.cpp:145-207 | a clock check in numbers: when a miss is counted, the power 5 lower for each, -1 when lost, and a report at every 200th check |
| TrackerReports.TrackIs | dpe/src/UeLoginInfoReceiver.cpp:239-280 | an access in numbers: the window that widens with the misses, the ideal time of a hit, and the reports |
| TrackerReports.SearchIs | dpe/src/UeLoginInfoReceiver.cpp:282-328 | an access without a target in numbers: what continues a candidate, what becomes of it, and when old candidates are forgotten |
| TrackerReports.FallsSilent | dpe/src/UeLoginInfoReceiver.cpp:145-207 | a target that falls silent is reported with 5 and 10 less power and then lost, one of three accesses at the second miss |
| TrackerReports.ReportsEvery200 | dpe/src/UeLoginInfoReceiver.cpp:145-207 | over any number of checks in time: one report at every 200th, with the last power, and nothing else changes |
| TargetTracker.UeLoginInfoReceiver.CheckTarget | dpe/src/UeLoginInfoReceiver.cpp:167-207 | checkTarget on the fields |
| TargetTracker.UeLoginInfoReceiver.FindCandidate | dpe/src/UeLoginInfoReceiver.cpp:282-313 | the loop finds the first candidate the access continues |
| TargetTracker.UeLoginInfoReceiver.ProcessUeEstablishInfo | dpe/src/UeLoginInfoReceiver.cpp:211-328 | processUeEstablishInfo on the fields |

## Left out

- AMD PDU re-segmentation: a stub in the source that always frees and fails, and modelled as that.
- UM and TM packets are only freed, as in the source.
- Queues of elements, segments and PDUs, and the list of UE contexts, are values (sequences and maps); the intrusive list they sit on is verified on its own, and the pool blocks behind them are tracked.
- Pool blocks are known by the address of their data, with the header as a record; the layout in memory is not modelled.
- A run of the RLC layer is followed up to the first join that is not exact.
- RlcStack.Layer.MacUeDataInd: a loss bounds the blocks used at the end of the indication, not at the packet that was lost, as deliveries within it use up blocks too.
- MacDemux.UlSchDecoder.MacDeMultiplexAndSend: sends values; indications in pool blocks and failed allocations are in MacToRlc.
- LogRing.AsyncLog.WriteRecord: the size of a block's array and the cut of a text that exceeds it are not modelled, because record text is a parameter.
- LayerRuns.Run: marking a UE as deleted and deleting it are one step, as nothing is received in between.
- PerNas.LongestShows: the octets of a pointer of the 64-bit build; the other build has no padding and is not modelled.
- The measurement attached to packets is a parameter, as it is kept by MAC.
- Number text in cJSON (`strtod`, `sprintf`): a codec with the properties of `JsonValue.CodecOk`; locales and allocation hooks.
- JSON strings are sequences of octets; the terminator of C strings, and with it what follows a decoded NUL, is not modelled. Raw items and the many create and add helpers are left out.
- JsonPrinter.PrintBuffer.Ensure: allocation succeeds; a failing one only ends the print.
- Log text, timestamps, and log type 2.
- NAS information elements beyond the dedicated message, which are copied field by field.
- TrackerReports.CheckIs: and TrackIs, SearchIs, FallsSilent and ReportsEvery200 are for numbers whose differences fit their 16 and 32 bits; the wrap-around beyond is in the functions of TargetTracker, about which the invariant holds without a limit.
- Tracker timestamps are unbounded; sockets, the random jitter and the database are parameters or left out.
- Sockets, files, threads, events, message queues, configuration and KPI counters.
