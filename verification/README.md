# OpenMC: a verified model of the two coding pipelines

OpenMC carries a stream of IP packets over two lossy paths. A processing host groups intercepted packets into
generations (Reed-Solomon) or blocks (RaptorQ), sends them at once, and adds redundancy; an edge receiver forwards what
arrives, rebuilds what is missing, and hands everything to a destination that counts sequence numbers. A traffic
generator paces the stream.

This project models that system in Dafny and proves what its parts keep and what they achieve together. Check it with
`dafny verify dfyconfig.toml`.

## How it is organised

Each stateful program appears twice. A *specification* (functions on values) says what one event does; a *class* with
the program's own fields, buffers and loops is proved to do exactly that. Everything about whole runs is proved about
the specification.

| part | specification | class | results |
|---|---|---|---|
| Reed-Solomon host | `RsGateway` | `RsHost` | invariant, conservation, the pending slot |
| Reed-Solomon receiver | `RsSlot`, `RsTable` | `RsReceiver` | `RsSlotLaws`, `RsDelivery`, `RsStatistics`, `RsCounts` |
| both with two FIFO paths | `RsSystem` | | gate safety, `RsComposition`, `RsPipeline`, `RsRepair` |
| RaptorQ host | `RqGateway` | `RqHost` | lifecycle, symbol order, `RqHostRuns` |
| RaptorQ receiver | `RqBlock`, `RqTable` | `RqReceiver` | `RqBlockLaws`, `RqEntry`, `RqSafety`, `RqReuse`, `RqRoom`, `RqAttempts`, `RqCompletion`, `RqRecords`, `RqStatistics`, `RqCounts` |
| RaptorQ host and receiver | | | `RqComposition`, `RqPipeline` |
| decision engine | `Decision` | `Decision.DecisionEngine` | exact proportional split (`Lcg`), `Policies` |
| traffic generator | `Pacer` | methods of `Pacer` | no catch-up bursts, accounting, `PacingRate` |
| destination | `Destination` | `Destination.Server` | the bitmap is a set, the run switch |
| end to end | | | `EndToEnd`, `RqEndToEnd` |

`Base`, `Wire`, `FlatBuffer`, `Deliveries` and `Bags` hold shared vocabulary, wire formats, the flat packet layout, the
log of the raw socket and what it hands on as a multiset; `Bits` relates bytes to the bit vectors of `RsWitness`, and
`PayloadLaws` says what counts as useful payload.

## What is assumed

* **Codecs are contracts.** The Reed-Solomon library restores any column with at most r missing data bytes and leaves
  the list of erasures as it was (`RsCodec.Correct`); the RaptorQ library is systematic, fails or returns the source
  packets, and does so on every superset of symbols on which it succeeded (`RqCodec.Correct`). The ids it draws for
  repair symbols are at least the block size, as in section 4.4.2 of RFC 6330 (`RqGateway.FairLuck`). Both contracts have
  a concrete codec that satisfies them (`RsWitness.ContractHasModel` for every number of parity bytes,
  `RqCodec.ContractHasModel`). That no codec could do more than the Reed-Solomon contract says is proved, not assumed
  (`RsCodec.NoCodecRestoresMore`).
* **Environment.** Time is an arbitrary clock reading per handler call, a send's verdict is an arbitrary oracle per row,
  allocation and encoding failures are oracles, link metrics are arbitrary reals. A frame that the host's socket refuses
  is a frame lost on the path.
* **Configuration.** Both ends use the same codec and size. Packets are at least 20 bytes (an IP header) where delivery
  is claimed. The pacing period is positive (at most 10^9 packets per second).
* **RaptorQ traffic.** What the 1024 slots and the bounded list of finished blocks do is what an unbounded receiver does
  while blocks that share a slot do not interleave, a newcomer has neither the 16-bit id of the block it evicts nor that
  of a finished block, and at most 1024 blocks are finished (`RqTable.Separate`). Runs may be of any length and symbols
  may be repeated; when repeats are harmless is a theorem (`RqSafety.SafeIffQuiet`), and what the receiver does with an
  id that comes round is another (`RqReuse.HandedOnIff`). Where blocks are shown to be complete, the socket refuses
  nothing and at most 40 different symbols of a block arrive; of the host's blocks no more exist.

## What was found in the code

* With one parity fragment the all-parity gate of the Reed-Solomon receiver is unsafe: no parity travels on path B, so
  the gate can open while data is still in flight there. It is safe in every run exactly when r >= 2, or r = 0 and it
  never opens (`RsSystem.GateSafeIffTwoParities`).
* The decoder's return code is only logged, so rows are handed on even when too many were missing. The bytes are right
  for every content of the generation exactly when no more than r rows were missing when the gate opened
  (`RsDelivery.DeliveredIffGateWithinParity`).
* Neither receiver's failure counter can ever move (`RsStatistics.StatisticsAreConserved`,
  `RqStatistics.StatisticsAreConserved`): a generation or block is only classified after all of it was forwarded.
* A generation that is dropped because the pending slot is taken is never protected, although all its data is sent; every
  other full generation has each of its r parity fragments on the path of its number as soon as it has been encoded
  (`RsRepair.EverythingIsSent`).
* A receive batch of n callbacks can never drop a generation's parity exactly when n is at most eight
  (`RsSystem.BatchNeverDropsIffSmall`).
* A symbol of a finished RaptorQ block can reach the destination again. It takes more than a repeat: the late symbols
  build up a record of their own, and one of them is handed to the socket exactly if its id is stored there and its row
  is missing there or the stored rows decode (`RqEntry.LateSymbolSpeaksIff`); it lands exactly if, moreover, the socket
  takes what is then sent (`RqEntry.LateSymbolLandsIff`). A run forwards each packet at most once and finishes each block
  at most once if and only if no symbol along the trace does that (`RqSafety.SafeIffQuiet`); traces without repeats never
  do (`RqSafety.DistinctIsSafe`). Of a one-packet block the second copy is harmless and the third is handed on
  (`RqSafety.TriplicateIsForwardedAgain`).
* A block that reuses the 16-bit id of a finished one is taken for it: the first source symbol to reach its slot is
  handed on if and only if the id is not on the list (`RqReuse.NewcomerIsHandedOnIff`), and any symbol of a block whose id
  is listed exactly if its own id is stored already and its row is missing or the stored rows decode
  (`RqReuse.HandedOnIff`). So a newcomer's packet is kept back although the destination never had it, until the symbol is
  repeated (`RqReuse.ReusedIdNeedsARepeat`).
* The receiver copies as many bytes as a symbol's header says, and accepts symbols of different lengths for one block: a
  symbol of 1000 bytes after one of 1 byte is copied behind the block's buffer (`RqRoom.SecondDoesNotFit`). A symbol stays
  inside exactly if it is not copied or is at most (40 - stored symbols) times the block's symbol length long
  (`RqRoom.StaysInBufferIff`); a stream always does if no symbol is longer than an earlier one with its block id
  (`RqRoom.NeverLongerIsAccepted`), as in all traffic of the host.
* The pacing target is narrowed to 32 bits and can become 0 (`Pacer.TargetCanWrapToZero`); it is the documented one
  exactly when the product fits (`Pacer.TargetIsDocumentedIffItFits`).
* The doubled block size of the quality and adaptive policies never survives the guardrail where a block is opened
  (`Decision.BlockShapeIsBounded`). The policies' own minimum of repairs overrides the configuration: the configured
  number is a bound in every history exactly for the default policy, for the quality policy with at least two configured
  repairs, and for the adaptive policy with at least one (`Decision.RepairsStayWithinIff`). For the same reason more
  measured loss can mean fewer repairs, exactly with the quality policy and one configured repair
  (`Policies.RepairsGrowWithLossIff`).
* The destination prints no summary for a run that is replaced before it is complete: a replaced run has a summary if and
  only if a count is expected and every number below it has been received (`Destination.Serve`,
  `Destination.ReplacedRunWithoutSummary`).
* Without an expected count, the numbers that the destination reports missing lie below the greatest one received if and
  only if something in range was received (`Destination.MissingLieBelowIff`). A run whose only packet is number 0x100000
  is said to miss number 0 (`Destination.OnlyOutOfRange`).

## Model

| member | source | states |
|---|---|---|
| RsCodec.NoCodecRestoresMore | src/edge_receiver/edge_receiver_rs.c:576-614 | whatever the codec, r parity bytes cannot restore every column with more than r bytes missing |
| RsCodec.RestorableIffWithinParity | src/edge_receiver/edge_receiver_rs.c:576-595 | every column survives a loss pattern if and only if at most r of its bytes are missing |
| RsWitness.ContractHasModel | src/processing_host/openmc_rs.c:430-449 | for every number of parity bytes a concrete byte codec over GF(2^8) keeps the Reed-Solomon contract |
| Wire.FragmentRoundTrip | src/edge_receiver/edge_receiver_rs.c:745-753 | a serialised Reed-Solomon fragment parses back to itself, header fields in network order |
| Wire.SymbolRoundTrip | src/edge_receiver/edge_receiver_rq.c:600-623 | a serialised RaptorQ symbol parses back to itself |
| Wire.FragmentLayout | src/edge_receiver/edge_receiver_rs.c:745-753 | which byte of a Reed-Solomon frame holds which part of which field |
| Wire.SymbolLayout | src/edge_receiver/edge_receiver_rq.c:600-616 | the same for a RaptorQ frame |
| PayloadLaws.UdpPacketCounts | src/edge_receiver/edge_receiver_rs.c:429-453 | the useful bytes of any IPv4 packet with UDP, built from its fields: for every header size and options, and for every value of the two length fields, sound or not |
| PayloadLaws.UdpPayloadCounts | src/edge_receiver/edge_receiver_rs.c:429-453 | of a sound packet the UDP payload counts, whatever follows it inside or behind the IP packet |
| PayloadLaws.OtherProtocolsCountNothing | src/edge_receiver/edge_receiver_rs.c:440-452 | any other protocol counts 0 |
| PayloadLaws.PayloadIsPartOfPacket | src/edge_receiver/edge_receiver_rs.c:429-453 | whatever the bytes are, no more counts than follows the two shortest headers |
| RsGateway.PacketKeepsInv | src/processing_host/openmc_rs.c:582-653 | every packet keeps: count below K, genuine fragments only, each place once, no data behind parity of its generation on a path, all data sent, all parity sent of every full generation that is neither pending nor dropped and none of the others, full = encoded + dropped + pending |
| RsGateway.BatchEndKeepsInv | src/processing_host/openmc_rs.c:928-932 | encoding the pending generation and sending its parity keeps the same invariant: it is then a full generation that is neither pending nor dropped, so all its r parity fragments are on their paths |
| RsGateway.SmallBatchDropsNothing | src/processing_host/openmc_rs.c:333-349 | a receive batch of at most 8 callbacks, whatever the packet lengths, drops no generation and leaves nothing pending |
| RsGateway.NineCallbacksMayDrop | src/processing_host/openmc_rs.c:333-339 | from 7 buffered packets, nine more of the same length drop exactly one generation |
| RsSystem.BatchNeverDropsIffSmall | src/processing_host/openmc_rs.c:333-349 | over all runs: a receive batch of n callbacks that starts with an empty pending slot never drops a generation if and only if n <= 8 |
| RsHost.Host.constructor | src/processing_host/openmc_rs.c:325-331 | the zeroed host shows the initial model and its invariant |
| RsHost.EncodeColumns | src/processing_host/openmc_rs.c:551-568 | the nested loops over the flat buffer compute, for every column, the parity bytes of that column of the packets |
| RsHost.Host.SendFragment | src/processing_host/openmc_rs.c:464-519 | the serialised fragment is appended to path B exactly for odd data indices and odd parity numbers, else to path A |
| RsHost.Host.MarkGenerationReady | src/processing_host/openmc_rs.c:333-349 | a full generation is copied to the free pending slot byte for byte, or counted as dropped |
| RsHost.Host.HandleIpPacket | src/processing_host/openmc_rs.c:582-653 | one intercepted packet takes the host, buffers and path logs to the model's next state; the overflow branch is unreachable |
| RsHost.Host.FlushGeneration | src/processing_host/openmc_rs.c:535-579 | the r parity fragments of exactly the pending packets go out in order, odd ones on path B and even ones on path A, and the generation is counted |
| RsHost.Host.RunBatch | src/processing_host/openmc_rs.c:904-933 | a whole receive batch equals the model's batch and keeps the invariant, with it that of the parity; at most 8 callbacks leave the drop counter alone |
| RsTable.SlotsDivideWords | src/edge_receiver/edge_receiver_rs.c:412-415 | the slot of a 16-bit id is the slot of the unwrapped generation number, because 256 divides 65536 |
| RsTable.TableRefinesMap | src/edge_receiver/edge_receiver_rs.c:412-426 | on every trace in which generations sharing a slot do not interleave and a newcomer's id differs from the evicted one's, the 256-slot table sends and counts as an unbounded map does |
| RsSlotLaws.ProcessLaw | src/edge_receiver/edge_receiver_rs.c:632-665 | one pass forwards exactly what was present and not yet forwarded, each row once, and everything once all parity is there; rows too short for an IP header are flagged without being sent |
| RsSlotLaws.OtherSlotIsForgotten | src/edge_receiver/edge_receiver_rs.c:412-426 | a slot of another generation, or with packets of another length, is forgotten: the handler does what it does with a blank one |
| RsSlotLaws.NewSlotHolds | src/edge_receiver/edge_receiver_rs.c:774-829 | after the first fragment a slot knows its length, its time and that one place |
| RsDelivery.HandlerTracks | src/edge_receiver/edge_receiver_rs.c:726-837 | after any fragment of a generation the slot's flags are determined by the set of places seen, and exactly the forwarded rows went out once |
| RsDelivery.ForwardingIsOrderFree | src/edge_receiver/edge_receiver_rs.c:511-528 | two runs covering the same places, in any order with any repetition, end with the same forwarded set |
| RsDelivery.CompleteIff | src/edge_receiver/edge_receiver_rs.c:657-665 | all rows are forwarded if and only if all data or all r parity places have been seen |
| RsDelivery.DecodingRebuilds | src/edge_receiver/edge_receiver_rs.c:555-596 | column decoding is the inverse of column encoding: with at most r rows missing every missing row is rebuilt at every byte and present rows stay |
| RsDelivery.RunDelivers | src/edge_receiver/edge_receiver_rs.c:494-724 | if at most r rows are missing when the gate opens, exactly the forwarded packets that can be IP are delivered, each once, byte-identical, whatever follows |
| RsDelivery.EarlyGateCorrupts | src/edge_receiver/edge_receiver_rs.c:576-614 | if more than r rows are missing when the gate opens, some generation is handed on with a wrong packet |
| RsDelivery.DeliveredIffGateWithinParity | src/edge_receiver/edge_receiver_rs.c:511-614 | every generation is delivered right if and only if at most r rows were missing each time the gate opened |
| RsSystem.StepKeeps | src/processing_host/openmc_rs.c:484-519 | intercepting, ending a batch, losing or delivering the next frame of either path keeps host and channel invariants |
| RsSystem.GateIsSafeInEveryRun | src/edge_receiver/edge_receiver_rs.c:522-528 | unless r = 1, once all parity of a generation has arrived none of its data is in flight or will be sent, and a packet is missing exactly if the network lost it |
| RsSystem.LoneParityOvertakes | src/processing_host/openmc_rs.c:484-499 | with r = 1 there is a run in which the parity arrives while data is in flight on path B |
| RsSystem.GateSafeIffTwoParities | src/edge_receiver/edge_receiver_rs.c:522-528 | the gate is safe in every run if and only if r >= 2 or r = 0 |
| RsComposition.ReceiverFollows | src/edge_receiver/edge_receiver_rs.c:726-837 | on everything that arrives from the host, every generation's slot and deliveries are those of its own fragments |
| RsComposition.GateCountsFinalLosses | src/edge_receiver/edge_receiver_rs.c:511-528 | unless r = 1, the gate stays within parity if and only if the losses at the end do |
| RsComposition.ErasuresAreLosses | src/edge_receiver/edge_receiver_rs.c:511-576 | at the fragment that completes a generation's parity, the handler gives the decoder an erasure list that names exactly the packets that the network lost, and calls it exactly if there are any |
| RsComposition.GenerationIsHandedOn | src/edge_receiver/edge_receiver_rs.c:632-724 | a recoverable generation, full or partial, is handed on completely, each packet once, byte-identical |
| RsPipeline.HistoryIsIntercepted | src/processing_host/openmc_rs.c:582-653 | the generations read one after the other are the accepted packets in order, whatever their lengths |
| RsPipeline.GenerationsAreMaximal | src/processing_host/openmc_rs.c:582-653 | over every run a generation ends only when it is full or the next packet has another length |
| RsPipeline.EverythingIsHandedOn | src/edge_receiver/edge_receiver_rs.c:726-837 | in every run with all generations recoverable, the packets handed on are, as a multiset, the intercepted ones |
| RsRepair.EverythingIsSent | src/processing_host/openmc_rs.c:464-579 | over every run, packet i of a generation is on path B if i is odd and on path A otherwise; so is parity p, for every p < r, of every full generation that is neither dropped nor pending; no parity of any other is sent |
| RsRepair.LossesAreRepaired | src/edge_receiver/edge_receiver_rs.c:494-724 | in terms of the network: in every run that ends with empty paths, with no parity and at most r packets of each encoded generation lost and nothing of the others, the packets handed on are, as a multiset, the intercepted ones |
| RsRepair.LostPacketIsRebuilt | src/edge_receiver/edge_receiver_rs.c:494-724 | for any r >= 2, any codec that keeps the contract and any eight packets of one length, a run in which the network loses a packet and all eight are handed on |
| RsStatistics.StatisticsAreConserved | src/edge_receiver/edge_receiver_rs.c:602-721 | on every byte stream: no_loss + repaired + failed = generations reported (= completed for a positive clock), failed = 0, one decode and r parity per repaired generation, useful bytes = payload of the completed ones, send counters = successful sends |
| RsStatistics.OriginalsAndRepairsAreAll | src/edge_receiver/edge_receiver_rs.c:455-486 | forwarded packets are the originals plus the successful repaired sends |
| RsCounts.FragmentsAreCounted | src/edge_receiver/edge_receiver_rs.c:794-829 | on everything that arrives of a run: data fragments counted are the first copies that come before their generation's parity is complete, parity fragments the first copies, generations those of which anything arrived |
| RsCounts.TimesAreKept | src/edge_receiver/edge_receiver_rs.c:776-778 | a generation keeps the time of its first fragment, and its last time moves exactly when a row is handed on |
| RsCounts.BadDatagramIsIgnored | src/edge_receiver/edge_receiver_rs.c:740-772 | a datagram that is too short, or announces nothing, too much or more than follows, changes nothing |
| RsCounts.TrailingBytesAreIgnored | src/edge_receiver/edge_receiver_rs.c:754-765 | bytes behind the announced length make no difference |
| RsCounts.UnknownPlaceStoresNothing | src/edge_receiver/edge_receiver_rs.c:794-834 | a fragment with an unknown type or an index outside its type's range leaves at most the time of the generation |
| RsReceiver.FillColumn | src/edge_receiver/edge_receiver_rs.c:555-571 | the loops build the received column with zeros for missing rows, and the erasure list is exactly the missing rows in ascending order |
| RsReceiver.CopyBack | src/edge_receiver/edge_receiver_rs.c:588-595 | only missing rows change, only in this column, to the decoder's bytes |
| RsReceiver.DecodeAllColumns | src/edge_receiver/edge_receiver_rs.c:555-596 | after the loop the rows are the decoded ones in every column, with the same erasures throughout |
| RsReceiver.CopyInto | src/edge_receiver/edge_receiver_rs.c:801-803 | memcpy changes the first bytes of one row and nothing else |
| RsReceiver.EdgeReceiver.constructor | src/edge_receiver/edge_receiver_rs.c:295 | the static table starts with 256 blank records that share no memory |
| RsReceiver.EdgeReceiver.TryDecodeGeneration | src/edge_receiver/edge_receiver_rs.c:494-625 | record, counters and log become those of the decoding function, including every early return |
| RsReceiver.EdgeReceiver.ProcessGeneration | src/edge_receiver/edge_receiver_rs.c:632-724 | forwarding, decoding and completion in place equal the processing function |
| RsReceiver.EdgeReceiver.GetGenState | src/edge_receiver/edge_receiver_rs.c:412-426 | a record of another generation is wiped in place and counted, otherwise returned as it is |
| RsReceiver.EdgeReceiver.HandleFragment | src/edge_receiver/edge_receiver_rs.c:726-837 | one datagram, malformed or not, takes table, counters and log to the specified state and touches only its own record |
| RqCodec.ContractHasModel | src/edge_receiver/edge_receiver_rq.c:542-546 | a concrete codec keeps the RaptorQ contract: systematic, sound, monotone |
| RqGateway.ShapeIsBounded | src/processing_host/openmc_rq.c:1059-1113 | under every policy and whatever the metrics, k is the configured block size and a block gets at most 32 repairs |
| RqGateway.PacketKeepsInv | src/processing_host/openmc_rq.c:1047-1244 | for every packet length and every failure: all symbols of a block share T and k, source ids 0, 1, ... go out once in order before the repairs; a full block whose encoding succeeded has exactly the repairs decided when it was opened, any other block none; completed = full blocks |
| RqGateway.MetricsKeepInv | src/processing_host/openmc_rq.c:884-889 | new link metrics between two packets keep the same invariant |
| RqHost.Host.constructor | src/processing_host/openmc_rq.c:910-912 | 1024 idle records, nothing allocated, the first block id is 1 |
| RqHost.Host.AllocNewBlock | src/processing_host/openmc_rq.c:1024-1043 | the slot of the next id is never in use, so the overwriting branch is unreachable |
| RqHost.Host.Allocate | src/processing_host/openmc_rq.c:1081-1097 | either both allocations are held or everything is given back |
| RqHost.Host.StartBlock | src/processing_host/openmc_rq.c:1055-1119 | a block is opened with the guarded size and the policy's repairs, or its number is spent without a block |
| RqHost.Host.ReleaseBlock | src/processing_host/openmc_rq.c:1127-1137 | what the live block holds is freed, each allocation once |
| RqHost.Host.FinishBlock | src/processing_host/openmc_rq.c:1180-1243 | a full block is encoded from the packets sent, its repairs go out in order, as many frames as the block has repairs to send if the encoding succeeds, and it is released |
| RqHost.Host.HandleIpPacket | src/processing_host/openmc_rq.c:1047-1244 | the model's step, at most one live block, allocations held are exactly the live block's, and the handler calls itself at most once |
| RqHostRuns.RepairsAreAsDecided | src/processing_host/openmc_rq.c:1059-1227 | over every run: a block opened by event m and filled by event n has its k source symbols in the log and behind them as many repair symbols as the engine decided at m if the encoding succeeded at n, else none |
| RqHostRuns.DefaultPolicyProtects | src/processing_host/openmc_rq.c:578-584 | for the default policy that is the configured number |
| RqHostRuns.PartialBlocksHaveNone | src/processing_host/openmc_rq.c:1180-1227 | a block that never became full has no repair symbols |
| RqHostRuns.BlocksAreMaximal | src/processing_host/openmc_rq.c:1047-1119 | over every run a block ends only because it is full, because the next packet has another length, or because there was no memory for it |
| RqHostRuns.IdleHostFillsOneBlock | src/processing_host/openmc_rq.c:1047-1244 | from an idle host, up to k packets of one length make one block, which is open until the k-th and then finished |
| RqHostRuns.SymbolsAreRouted | src/processing_host/openmc_rq.c:1156-1227 | between two reports of metrics every symbol takes the path of one choice of the engine, one a symbol and in order |
| RqHostRuns.DefaultPathsById | src/processing_host/openmc_rq.c:565-577 | with the default policy a symbol is on path B if and only if its id is odd, over every run |
| RqHostRuns.EngineKnowsLatest | src/processing_host/openmc_rq.c:884-889 | over every run the engine decides by the metrics reported last, all zero before the first report |
| RqBlockLaws.SymbolKeepsInv | src/edge_receiver/edge_receiver_rq.c:650-667 | for any symbols, of any length that the buffer can take: stored ids never repeat, nesi = min(40, sources + repairs), the forwarded count is the number of flags |
| RqTable.SlotsDivideWords | src/edge_receiver/edge_receiver_rq.c:451-455 | the slot of a 16-bit id is the slot of the unwrapped block number, because 1024 divides 65536 |
| RqTable.TableRefinesMap | src/edge_receiver/edge_receiver_rq.c:451-471 | while blocks sharing a slot do not interleave, a newcomer has neither the id of the block it evicts nor that of a finished one, and at most 1024 are finished, the 1024-slot table and the bounded list send, count and finish as unbounded ones keyed by the unwrapped block number |
| RqSafety.SafeIffQuiet | src/edge_receiver/edge_receiver_rq.c:650-699 | over every genuine run, repeats, clock and socket verdicts included: each source packet reaches the destination at most once with its own bytes, and a block is finished at most once, exactly when all of it has been sent, if and only if no symbol of a finished block lands again anywhere in the trace |
| RqSafety.ReceiverIsSafe | src/edge_receiver/edge_receiver_rq.c:473-699 | the same equivalence for what the 1024-slot receiver sends and lists as finished |
| RqSafety.DistinctIsSafe | src/edge_receiver/edge_receiver_rq.c:657 | a trace that repeats no symbol is such a trace, so its run is safe |
| RqSafety.LateSymbolsAreSilent | src/edge_receiver/edge_receiver_rq.c:657-671 | after any history a further symbol of a finished block is handed to the socket exactly if its id is stored again and its row is missing there or the stored rows decode; unless it lands, the finished blocks stay as they are |
| RqEntry.LateSymbolSpeaksIff | src/edge_receiver/edge_receiver_rq.c:657-671 | one symbol of a finished block is handed to the socket again if and only if its id is stored again and its row is missing there or the stored rows decode |
| RqEntry.LateSymbolLandsIff | src/edge_receiver/edge_receiver_rq.c:657-699 | and it reaches the destination if and only if, moreover, the socket takes what is then sent; otherwise nothing is flagged or finished |
| RqSafety.TriplicateIsForwardedAgain | src/edge_receiver/edge_receiver_rq.c:657-688 | of every one-packet block: two copies of its symbol make a safe run, three do not |
| RqEntry.SymbolSpeaksIff | src/edge_receiver/edge_receiver_rq.c:657-690 | any symbol on any record at rest is handed to the socket if and only if, when its block counts as finished, its id is stored already, and its row is missing or the stored rows decode |
| RqReuse.HandedOnIff | src/edge_receiver/edge_receiver_rq.c:650-690 | the same for a datagram at the receiver, whatever blocks the list of finished ids stands for: the slot's own record and the listed 16-bit id decide |
| RqReuse.NewcomerIsHandedOnIff | src/edge_receiver/edge_receiver_rq.c:650-671 | a source symbol that finds no record of its id is handed on if and only if its 16-bit id is not listed |
| RqReuse.ReusedIdNeedsARepeat | src/edge_receiver/edge_receiver_rq.c:657-688 | two one-packet blocks with one 16-bit id: the first finishes and is listed, the second one's symbol is silent, its second copy is handed on |
| RqRoom.StaysInBufferIff | src/edge_receiver/edge_receiver_rq.c:634-667 | a copy ends inside the block's buffer if and only if the symbol is not copied or is at most (40 - nesi) times the block's symbol length long |
| RqRoom.AcceptsIff | src/edge_receiver/edge_receiver_rq.c:600-667 | the same for any datagram, malformed or not, at any receiver between two datagrams |
| RqRoom.NeverLongerIsAccepted | src/edge_receiver/edge_receiver_rq.c:634-667 | every stream, genuine or not, in which no usable symbol is longer than an earlier one with its block id stays inside the buffers |
| RqRoom.OneLengthIsAccepted | src/edge_receiver/edge_receiver_rq.c:634-667 | so does every stream in which the usable symbols of each block id have one length |
| RqRoom.SecondDoesNotFit | src/edge_receiver/edge_receiver_rq.c:663-664 | a stream of two datagrams with sound headers, symbol lengths 1 and 1000, of which the second does not |
| RqRoom.SuchDatagramsExist | src/edge_receiver/edge_receiver_rq.c:600-623 | there are byte strings that parse to these two symbols |
| RqCompletion.BlockIsFinishedIff | src/edge_receiver/edge_receiver_rq.c:529-699 | with a socket that refuses nothing and at most 40 different symbols of the block, it is finished if and only if all its source symbols have arrived, or k different symbols that the decoder can do with |
| RqCompletion.FinishingIsOrderFree | src/edge_receiver/edge_receiver_rq.c:529-699 | two runs in which the same symbols of a block arrive, in any order and however often, both finish it or neither does |
| RqAttempts.AttemptsAreBounded | src/edge_receiver/edge_receiver_rq.c:529-551 | the decoder is called for a block at most once per symbol beyond the first k - 1 that arrive, and never before k different ones have; while at most 40 ids have been seen everything counted is stored |
| RqAttempts.OutputIsCaused | src/edge_receiver/edge_receiver_rq.c:672-690 | as long as the decoder has not been called for a block, only rows that arrived go out |
| RqRecords.OtherBlockIsForgotten | src/edge_receiver/edge_receiver_rq.c:451-471 | a record of another block is forgotten: the handler does what it does with a blank one |
| RqRecords.NewRecordHolds | src/edge_receiver/edge_receiver_rq.c:630-667 | the first symbol of a block decides its size, within the configured one, and its symbol length, and is all that is stored |
| RqRecords.RecordsCountIds | src/edge_receiver/edge_receiver_rq.c:659-660 | on every genuine trace a record's source counter is the number of stored ids below k |
| RqRecords.SuccessIsFinal | src/edge_receiver/edge_receiver_rq.c:529-578 | a record whose decoding succeeded causes no further decoder call |
| RqRecords.TimesAreKept | src/edge_receiver/edge_receiver_rq.c:629-631 | an open record keeps the time of its first symbol, and its last time moves exactly when the socket takes a row |
| RqRecords.ListIsBounded | src/edge_receiver/edge_receiver_rq.c:288-292 | on every stream the list is as long as blocks have been finished, up to 1024 |
| RqRecords.ListOnlyGrows | src/edge_receiver/edge_receiver_rq.c:288-292 | and what is on it stays there, in its place |
| RqRecords.BadDatagramIsIgnored | src/edge_receiver/edge_receiver_rq.c:600-622 | a datagram without a whole header changes nothing; one that announces nothing, or more than follows, is only counted |
| RqRecords.TrailingBytesAreIgnored | src/edge_receiver/edge_receiver_rq.c:619-622 | bytes behind the announced length make no difference |
| RqRecords.RepairsNeedTheDecoder | src/edge_receiver/edge_receiver_rq.c:672-690 | a symbol without the source flag sends nothing unless the decoder is called |
| RqComposition.HostTrafficIsGenuine | src/processing_host/openmc_rq.c:1156-1227 | whatever arrives from the host is a symbol of its block as the receiver understands it, however many blocks there are |
| RqComposition.BuffersSuffice | src/edge_receiver/edge_receiver_rq.c:634-667 | whatever is repeated, of each block at most 40 symbols are stored, row n is the symbol of id n, nesi = sources + repairs, and the decoder is never called for a block closed early; without repeats it is called at most R + 1 times |
| RqComposition.DeliveredIffQuiet | src/edge_receiver/edge_receiver_rq.c:585-699 | host and receiver together hand on intercepted packets only, each at most once, and finish exactly the full blocks that were handed on completely, if and only if no symbol of a finished block lands again |
| RqComposition.PipelineIsSafe | src/edge_receiver/edge_receiver_rq.c:585-699 | for every run of the host and everything that arrives of it: the sources exist, the traffic is genuine, and while blocks do not share slots or ids the same equivalence holds through the 1024-slot table, for any number of blocks |
| RqPipeline.HistoryIsIntercepted | src/processing_host/openmc_rq.c:1047-1244 | the blocks read one after the other are the packets the host took, in order, for every packet length and every failure |
| RqPipeline.BlockIsHandedOn | src/edge_receiver/edge_receiver_rq.c:585-699 | a block of which enough arrives, full or closed early, is handed on completely, each packet once, byte-identical |
| RqPipeline.EverythingIsHandedOn | src/edge_receiver/edge_receiver_rq.c:585-699 | if enough arrives of every block and no finished block is disturbed, the packets handed on through the 1024-slot table are, as a multiset, the ones the host took |
| RqStatistics.StatisticsAreConserved | src/edge_receiver/edge_receiver_rq.c:418-579 | on every stream of datagrams that the buffers can take, genuine or not: generations = no_loss + repaired = finished blocks (= completed for a positive clock), failed = 0, useful bytes = payload of the finished blocks' successful sends, parity consumed = sum over successful decodings of k minus sources, sends = originals + repaired |
| RqCounts.FragmentsAreCounted | src/edge_receiver/edge_receiver_rq.c:600-617 | on every such stream every datagram with a whole header is counted once, by its source flag |
| RqReceiver.BlockState.HasEsi | src/edge_receiver/edge_receiver_rq.c:521-527 | the scan finds an id if and only if it is stored |
| RqReceiver.BlockState.StoreSymbol | src/edge_receiver/edge_receiver_rq.c:663-667 | the packed buffer keeps its rows; a memcpy of the symbol's own length over what lies behind them gives the new row, under the new id, and leaves the overhang where it is |
| RqReceiver.BlockState.ReadRows | src/edge_receiver/edge_receiver_rq.c:542 | the packed buffer, read row by row, is the list of stored symbols |
| RqReceiver.EdgeReceiver.IsBlockCompleted | src/edge_receiver/edge_receiver_rq.c:279-285 | the scan finds a block if and only if it is in the list |
| RqReceiver.EdgeReceiver.MarkBlockCompleted | src/edge_receiver/edge_receiver_rq.c:288-292 | the list grows by the block unless it is full |
| RqReceiver.EdgeReceiver.TryDecodeAndForward | src/edge_receiver/edge_receiver_rq.c:529-579 | record, counters and log become those of the decoding function, including every early return |
| RqReceiver.EdgeReceiver.FinalizeBlock | src/edge_receiver/edge_receiver_rq.c:473-518 | counters, list and blank record of a finished block; the failure branch is unreachable |
| RqReceiver.EdgeReceiver.GetBlock | src/edge_receiver/edge_receiver_rq.c:451-471 | the record of the id, another block in the slot thrown away |
| RqReceiver.EdgeReceiver.HandleRqSymbol | src/edge_receiver/edge_receiver_rq.c:585-699 | one datagram, malformed or not and of any symbol length that the buffer can take, brings table, list, counters and log to the specified state and touches only its own record |
| Lcg.EveryResidueIsReached | src/processing_host/openmc_rq.c:803-804 | the generator visits every residue of the low bits within one period, from every state |
| Lcg.NoResidueTwice | src/processing_host/openmc_rq.c:803-804 | and none of them twice |
| Lcg.FullPeriodCount | src/processing_host/openmc_rq.c:803-805 | in one period exactly q states have low bits below q |
| Decision.ScoresMeetCosts | src/processing_host/openmc_rq.c:769-806 | the test on inverse scores is the test on costs without division, and both scores are positive |
| Policies.SplitInMetrics | src/processing_host/openmc_rq.c:769-808 | from any state, once metrics are reported any 2^24 consecutive choices take path A exactly ceil(2^24 * wB / (wA + wB)) times, where a path weighs 100 times its loss plus its RTT, each raised to its floor of 0.0001 or 1 |
| Policies.WorseLinkGetsLess | src/processing_host/openmc_rq.c:769-808 | more loss or RTT on a path, or less on the other, never gives it more choices |
| Policies.LossyLinkGetsLess | src/processing_host/openmc_rq.c:769-808 | ten percent loss and 20 ms against no loss and 25 ms: 7,627,671 of 2^24 |
| Policies.QualityTakesBetterPath | src/processing_host/openmc_rq.c:655-669 | with a measured loss the quality policy sends everything on the path with the smaller loss |
| Policies.QualityAlternates | src/processing_host/openmc_rq.c:655-662 | without one it alternates |
| Policies.MeasuredLossKeepsTurn | src/processing_host/openmc_rq.c:655-669 | and goes on from where it stopped |
| Policies.RepairsInMetrics | src/processing_host/openmc_rq.c:671-692 | the number of repairs of every policy in terms of the two losses and the configuration, after any history |
| Policies.RepairsGrowWithLossIff | src/processing_host/openmc_rq.c:671-692 | more measured loss never means fewer repairs, unless the policy is quality with one configured repair |
| Decision.RunIsRepeatedPick | src/processing_host/openmc_rq.c:780-808 | the counted run is what repeated calls of the engine give, one draw per call |
| Decision.BlockShapeIsBounded | src/processing_host/openmc_rq.c:578-851 | over every history of metrics and choices the guarded size is the configured one and repairs stay within the configured or built-in ceiling |
| Decision.RepairsStayWithinIff | src/processing_host/openmc_rq.c:671-692 | over every history repairs stay within the configured number if and only if the policy is the default one, or quality with at least 2, or adaptive with at least 1 configured |
| Decision.DecisionEngine.ChooseIface | src/processing_host/openmc_rq.c:565-669 | path and new engine state for all three policies |
| Decision.DecisionEngine.AdaptiveChooseIface | src/processing_host/openmc_rq.c:780-808 | path A is taken exactly if the draw lies below its share in terms of losses and RTTs; both fallback branches are unreachable |
| Pacer.Generate | src/applications/traffic_generator.c:669-1145 | the run of the trip function with the documented workload and the longest period of which pps fit into a second: sequence numbers 0..sent-1, slots strictly increasing, each send in its slot or later and before start + duration seconds, nominal slots = sent + missed + sleep errors, at most the target, shortfall bounded on a slot-bound exit |
| Pacer.Pace | src/applications/traffic_generator.c:829-1145 | the loop ends on every monotone clock, a stalled one included, and reports the run of the trip function up to the first trip that leaves, with the same discipline and accounting |
| Pacer.ChooseSlot | src/applications/traffic_generator.c:901-955 | skipping lands on the slot whose period contains the clock, and only expired slots are given up |
| Pacer.TargetIsDocumentedIffItFits | src/applications/traffic_generator.c:669-681 | the target is the product rounded down to a multiple of 8 if and only if that fits 32 bits |
| Pacer.TargetCanWrapToZero | src/applications/traffic_generator.c:669-681 | a configuration whose target is 0 |
| Pacer.NoCatchUpBursts | src/applications/traffic_generator.c:865-965 | any window of length w contains at most ceil(w / period) + 2 sends |
| PacingRate.SecondHoldsAtMost | src/applications/traffic_generator.c:726-965 | in terms of pps: any second of a run holds at most pps + 2 sends plus ceil((10^9 mod pps) / period) |
| PacingRate.SecondHoldsThreeMore | src/applications/traffic_generator.c:726-965 | at most pps + 3 as long as pps * pps <= 10^9 |
| PacingRate.PunctualRunIsComplete | src/applications/traffic_generator.c:829-1145 | on a machine whose trips take less than a period besides waiting, the whole workload is sent, packet k within slot k |
| PacingRate.LatenessIsReported | src/applications/traffic_generator.c:901-955 | the late count is exactly the number of trips that found their slot begun |
| Pacer.BurstBoundIsTight | src/applications/traffic_generator.c:829-1145 | a run of the loop, from a clock, in which the bound is reached |
| Destination.AbsentIsExact | src/applications/destination_server.c:62-71 | the missing numbers are exactly those below the bound that were not received, ascending |
| Destination.AbsentComplements | src/applications/destination_server.c:97-99 | missing + unique = the number space |
| Destination.Server.NoteSeq | src/applications/destination_server.c:50-60 | the bitmap stays the set of received numbers, unique count its cardinality, duplicates and out-of-range numbers the rest |
| Destination.Server.PrintMissingSample | src/applications/destination_server.c:62-71 | the first at most 16 missing numbers in order |
| Destination.Server.PrintBlockStats | src/applications/destination_server.c:74-95 | full, partial and empty blocks of eight counted exactly, together expected / 8 |
| Destination.Server.PrintRunSummary | src/applications/destination_server.c:97-109 | every number in the summary describes the received set |
| Destination.Server.Receive | src/applications/destination_server.c:187-231 | the active run changes exactly with number 0 of another run, and accounting follows the active run; a summary printed here shows nothing missing |
| Destination.RunSwitchIff | src/applications/destination_server.c:202-217 | while a run is active, the active run changes with a datagram if and only if that has number 0 and another run id |
| Destination.FirstHeaderStarts | src/applications/destination_server.c:209-214 | the first header of all starts a run, whatever its number |
| Destination.OthersAreIgnored | src/applications/destination_server.c:202-231 | as long as no number 0 of another run arrives, what is received is the active run's datagrams, in order |
| Destination.ForeignCanBeDeleted | src/applications/destination_server.c:226-229 | deleting foreign datagrams with nonzero numbers changes nothing |
| Destination.StragglerIsIgnored | src/applications/destination_server.c:202-229 | a straggler of a replaced run does not bring it back |
| Destination.Serve | src/applications/destination_server.c:162-238 | over any stream: at most one summary a run, all but the last complete, a replaced run has one if and only if it was complete, the active run summarised at the end |
| Destination.ReplacedRunWithoutSummary | src/applications/destination_server.c:194-217 | a stream with a replaced run that has none |
| Destination.MissingLieBelowIff | src/applications/destination_server.c:62-107 | without an expected count, every number reported missing lies below the greatest received one if and only if something in range was received |
| Destination.OnlyOutOfRange | src/applications/destination_server.c:62-107 | the one-packet stream with number 0x100000 leaves a run whose summary counts one packet and reports number 0 missing |
| Destination.ReceivedSinceStart | src/applications/destination_server.c:194-217 | what is counted is exactly the active run's packets since the datagram that started it: the first header of all, or the last number 0 that found another run active |
| Destination.CompleteRun | src/applications/destination_server.c:97-107 | the numbers 0 to n-1, each once in any order, give n unique, none duplicate, none out of range, none missing |
| EndToEnd.ContentOfBuild | src/applications/traffic_generator.c:1034-1048 | run id and sequence number written by the generator are read back by the destination |
| EndToEnd.TagLayout | src/applications/traffic_generator.c:1034-1048 | they lie behind 28 bytes of headers, four bytes each, low byte first |
| EndToEnd.EverythingArrives | src/applications/destination_server.c:187-231 | a paced run through host, lossy paths and receiver, with recoverable losses, leaves the destination with every number exactly once |
| RqEndToEnd.EverythingArrives | src/applications/destination_server.c:187-231 | the same for RaptorQ: a paced run through host, paths that lose, repeat and reorder, and the 1024-slot receiver leaves the destination with every number exactly once |
| EndToEnd.CompleteViewInCounters | src/applications/destination_server.c:97-107 | in the program's counters that is uniques = n, duplicates = 0 and a full bitmap |

## Left out

- libfec and lcrq internals: foreign code behind the two codec contracts; the Reed-Solomon erasure list being left as it was is part of the contract.
- Netfilter queue, sockets, select loops, signals, option parsing, CSV and log output: receives are events, sends are appended to a log.
- Frames refused by the processing host's sockets, and its packet and latency counters: such a frame is a lost frame, the counters only print.
- Floating-point rounding of scores and thresholds: metrics are reals, so the split is exact for the exact ratio.
- Counters and clocks are unbounded: 64-bit wrap-around is not modelled. One clock reading serves a whole handler call.
- Latency, throughput and schedule diagnostics: averages for printing.
- Metric files, HTTP and ping measurements in src/monitoring and the synthetic metrics: arbitrary inputs here.
- scripts, reproducibility and legacy/baseline: orchestration and older copies.
- pps above 10^9: the period would be 0 and the program would divide by it.
- RqReceiver.EdgeReceiver.HandleRqSymbol: a symbol whose copy would end behind its block's buffer is outside it (`RqBlock.StaysInBuffer`), because what the program does then is not defined; exactly which symbols these are is `RqRoom.StaysInBufferIff`, and the host sends none (`RqGateway.PacketKeepsInv`).
- RqBlockLaws.SymbolKeepsInv: the same.
- RqStatistics.StatisticsAreConserved: the same, for every datagram of the stream (`RqTable.Accepted`, met by every stream as in `RqRoom.NeverLongerIsAccepted`).
- Failure of the RaptorQ receiver's rq_init, calloc and malloc where a block is opened (edge_receiver_rq.c:627-637): they always succeed here; the program checks none of them.
- RqEndToEnd.EverythingArrives: the last hop is taken as lossless, and the multiset of packets is what is preserved.
- The field have_source of the RaptorQ receiver: written, never read.
- EndToEnd.EverythingArrives: the last hop is taken as lossless, and the multiset of packets is what is preserved, not their order.
