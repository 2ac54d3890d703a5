# turbobond: the bonding datapath, modelled and proved in Dafny

turbobond spreads one stream of IP packets over several uplinks and puts it back in order at the far end.  This project
models the datapath of that tunnel as one distributed protocol, together with the two control loops that feed it, and
proves what the protocol is for.  `dafny verify dfyconfig.toml` checks everything.

The source's mutable components are classes whose methods are proved against functions on values; the results about
whole runs are lemmas about those functions.  Clock readings, datagram arrivals, probe results, timer ticks and the
scheduler's link choice are inputs of steps, so a statement "for every run" quantifies over all of them.

| files | what they model |
|---|---|
| `Bits`, `Bytes`, `Crypto`, `Nonces`, `Protocol` | big integers as bit sets, big-endian fields, the sealer, what a nonce says and why none comes twice, the datagram codec |
| `Replay` | the replay window: a bitmap against a set of accepted counters |
| `Resequencer`, `ReorderBuffer` | the reorder buffer as functions, and as the class with heap, pending map and seen set |
| `ReorderRuns`, `ReorderStatistics`, `Pruning`, `Restoration`, `Opening` | order, conservation, statistics, bounded memory, invisible pruning, lossless restoration, also from the very first packet |
| `Skew` | reordering that the timeout and the capacity can bridge is invisible, on every run with any ticker |
| `ReorderTiming`, `ReorderPunctual` | how long one packet can be held on the ticker the source has: the general bound, and exactly when it is one timeout |
| `Scheduler`, `SchedulerFairness`, `SchedulerChoice`, `BondScheduler` | deficit weighted round-robin over real weights, who is chosen in every mode, and the class |
| `Tunnel`, `BondingTunnel`, `Concentrator`, `ConcentratorServer` | both ends, the handshake loop included |
| `Exchanges`, `Liveness` | what one end makes the other do, and who counts as connected |
| `EndToEnd` | the protocol between them: nothing is ever invented, repeated or swapped |
| `Receiving`, `Delivery`, `Returning` | nothing is lost either, in both directions, when every packet gets through somewhere in time |
| `Monitor`, `LinkMonitor` | link health averages and states |
| `Selector`, `RouteSelector` | route failover |
| `KotlinProtocol`, `KotlinReorder`, `KotlinReorderBuffer`, `KotlinTiming`, `KotlinSkew` | the Android implementation, against the Python one and the same abstract step: exactly which of its packets have a stall bound, and that bridgeable reordering is invisible there too |
| `Provision` | the service unit, printed and read back |

## Where the code and its own documentation part

- `turbobond/bond/reorder.py:3-7` promises that a lost packet stalls the pipe for at most one timeout.  `_drain` looks at
  the head's deadline only, so a later arrival below a held packet restarts the wait, and it runs when a packet or the
  ticker of `server.py:350-362` comes along.  `ReorderTiming.StallBound` is the bound the code meets on that ticker: with m
  numbers missing below the packet, less than m timeouts and m - 1 ticker periods.  `ReorderPunctual.OneTimeoutExactly` says
  when one timeout is enough: if and only if, as the push leaves the buffer, the packet is out already or no two
  neighbouring numbers below it are both missing.  `ReorderPunctual.WideGapOverstays` builds a run against the ticker that
  breaks the promise whenever two are, however short its period.
- `turbobond/bond/scheduler.py:185` calls the fallback unreachable in practice.  `SchedulerFairness.FallbackUnreachable`
  proves it for packets of at most (2n+1) quanta; `SchedulerFairness.FallbackExactly` says when it is reached, for all packets.
- `turbobond/links/monitor.py:21-25` presents `RECOVER_THRESHOLD = 3` as what makes a link come back slowly.  The guard only
  looks at DOWN and UNKNOWN.  `Monitor.ThresholdSkippedExactly` says when an answer makes a link UP before its third success in
  a row, for every probe history: if and only if no probe of the link has ever failed, fewer than two answers precede it,
  the link is in neither of those two states, and its averages are clean.  A new link gets there with its second good
  probe (`Monitor.SecondAnswerSuffices`), a link disabled and enabled again with its first (`Monitor.EnabledIsTrusted`).
  What holds a failed link back is the loss average: `Monitor.SlowReturn`.
- `android/core/src/main/kotlin/com/aegisdigital/turbobond/core/Reorder.kt:9-12` promises that a lost packet cannot stall the
  tunnel.  The buffer restarts its one deadline whenever the map's size is one after a put, also when the put replaced the
  packet already there.  `KotlinTiming.StallBoundedExactly` says which held packets have a bound over every later run: if and
  only if the timeout is 0, or some larger number or the number just below is held as well, which can be seen when
  the push returns.  `KotlinTiming.StallBound` is that bound; `KotlinTiming.HeldForever` and, from an empty buffer,
  `KotlinTiming.StallsFromNew` hold any other packet for as long as one likes with copies of itself.
- The same buffer takes 2^63 - 1 as a packet number, after which its position is negative and it starts afresh with whatever
  comes next: `KotlinReorder.WrapsAtTheEnd`.
- An overflow flush and a shutdown skip gaps without counting them in `gap_skips`; hence the equality in
  `ReorderRuns.RunsBalance` is claimed for runs without either, and an inequality for all runs.

## Model

| member | source | states |
|---|---|---|
| EndToEnd.UpstreamInOrder | turbobond/bond/server.py:240-289 | On every run of client, links and concentrator, with datagrams lost, repeated, delayed and reordered on any number of links and links joining, moving, closing and timing out, what the server's Session object has written to the TUN is a strictly increasing selection of the packets the client sent |
| EndToEnd.DownstreamInOrder | turbobond/bond/tunnel.py:368-389 | The same for return traffic: what the client writes to its TUN is a strictly increasing selection of the packets one Session object numbered |
| EndToEnd.NextKeeps | turbobond/bond/server.py:240-376 | The protocol invariant survives every single step: a send, a control frame, a rebind, any arrival, a tick, a reap, a return packet |
| EndToEnd.RunKeeps | turbobond/bond/server.py:240-376 | The invariant holds throughout every run, and the client keeps its session id |
| EndToEnd.DownKeeps | turbobond/bond/tunnel.py:368-432 | The downstream invariant survives every single step |
| EndToEnd.PushFaithful | turbobond/bond/server.py:287-289 | Receiving any packet of the stream, whether new, late or a copy, keeps a receiver faithful: output ascending and every held or written packet the one its number names |
| EndToEnd.TickFaithful | turbobond/bond/server.py:350-362 | A timer tick keeps a receiver faithful |
| EndToEnd.FaithfulSelects | turbobond/bond/reorder.py:1-11 | A faithful receiver's output is an in-order selection of the stream, each position at most once |
| EndToEnd.DispatchKeeps | turbobond/bond/server.py:341-348 | Handing out return traffic leaves what a session has received alone and keeps the session table well formed |
| Delivery.Delivered | tests/test_bonding_datapath.py:86-96 | Client to server, through codec, links, windows, session table and buffer: if every numbered packet gets through over some link, no datagram comes a whole window behind a later one of its link, no packet first comes a timeout or more behind a later one, and there is room for what waits, the server writes exactly the packets sent, in order |
| Returning.Returned | turbobond/bond/tunnel.py:368-432 | Server to client: a session hands out packets and control answers while its links join, move, close and time out; if its datagrams reach the client under the same conditions, the client writes exactly the packets the session numbered, in order, and skips nothing |
| Returning.HearTakes | turbobond/bond/tunnel.py:368-389 | Whatever reaches a socket of the client does to windows, buffer and output exactly what a receiver has to do with it: a fresh data frame with a payload is pushed, everything else is not |
| Returning.NoncesNeverRepeat | turbobond/bond/server.py:294-308 | Over any run of a session's sends no two datagrams use one nonce, while counters are never set back |
| Receiving.ReceivedWhole | turbobond/bond/server.py:240-289 | The receiving half of it, for either end: a receiver whose windows and buffer take an authentic stream, with counters that name its datagrams and packets that get through in time, releases all of it in order and skips nothing |
| Delivery.Processed | turbobond/bond/server.py:258-289 | A frame moves only its own uplink's window, and its data reaches the session's buffer exactly when that window finds the counter fresh |
| Delivery.ServeTakes | turbobond/bond/server.py:240-289 | Whatever reaches the concentrator, this session or another, genuine or not, does to the session's windows, buffer and output exactly what a receiver has to do with it |
| Receiving.FreshWhenNew | turbobond/bond/protocol.py:157-178 | On every link, a datagram is fresh exactly when its counter has not come over that link before |
| Nonces.RisingUnique | turbobond/bond/tunnel.py:66-68 | Where counters only rise, link and counter tell every datagram from every other, and no counter is 0 |
| Exchanges.Answered | turbobond/bond/server.py:274-279 | A welcome handshake is answered with an acknowledgement and a keepalive with a keepalive, to the sender's address, decodable on the same session and link, under the next counter; nothing else is answered |
| Exchanges.UnwelcomeUnanswered | turbobond/bond/server.py:267-269 | A frame whose counter is stale or seen is never answered, only counted |
| Exchanges.HandshakeCompletes | turbobond/bond/tunnel.py:246-266 | However many tries go unanswered first, the try whose datagram reaches the server at a counter the server finds fresh, and whose answer comes back, ends the loop with the socket handshaken after exactly that many datagrams; the socket's own window has no say |
| Exchanges.HandshakeExactly | turbobond/bond/tunnel.py:246-266 | For every list of answers: one datagram and one counter a try, up to and including the first authentic acknowledgement or keepalive; the socket is marked if and only if there is one; a link id that does not fit sends nothing |
| Exchanges.AnswerHeard | turbobond/bond/tunnel.py:368-389 | On the running datapath the server's answer marks the socket handshaken when the socket's window finds its counter fresh |
| Exchanges.HeardMarks | turbobond/bond/tunnel.py:368-389 | A fresh frame marks its socket handshaken, a fresh close unmarks it, anything else is one more reject and leaves the mark; no other socket changes |
| Exchanges.Rebound | turbobond/bond/tunnel.py:174-207 | A rebound socket has sent nothing, is not handshaken and takes any counter but 0; the other sockets stay |
| Exchanges.SecondCopyRejected | turbobond/bond/tunnel.py:368-375 | A second copy of any datagram changes nothing at the client but the count of rejects |
| Exchanges.SecondCopyInert | turbobond/bond/server.py:240-289 | A second copy of any datagram from the same address changes nothing at the server but the count of rejects, and a second copy of an effective close not even that; it is never answered |
| Exchanges.Remembered | turbobond/bond/server.py:258-272 | After any genuine frame that closes nothing its uplink is stored under the address it came from, with its counter spent |
| Exchanges.SessionOpens | turbobond/bond/server.py:249-272 | The first genuine frame of an unknown session opens it with exactly one uplink, at the sender's address and heard just now, nothing numbered yet, one counter spent if the frame is answered, and a buffer for 4096 packets that has taken the frame's packet if it carries one |
| Exchanges.SendToExactly | turbobond/bond/server.py:294-308 | Sending to an uplink spends exactly its next counter; a datagram leaves to its current address, and is counted, if and only if the payload is at most 1600 octets and the link id fits; nothing else in the session changes |
| Exchanges.CloseLeaves | turbobond/bond/server.py:280-285 | A close removes exactly its uplink, and the session exactly when that was its last; other uplinks and sessions are untouched |
| Exchanges.CloseOfUnknown | turbobond/bond/server.py:247-285 | Closing an uplink the server does not know leaves the table exactly as it was, unless the counter is 0: then the uplink stays joined and the frame counts as a reject |
| Exchanges.DispatchServesFirstLive | turbobond/bond/server.py:341-348 | Return traffic goes to the first session in rank order that has a live uplink, to the address of one of its live uplinks, decodable as its next numbered packet; no other session changes |
| Liveness.ReapsTheSilent | turbobond/bond/server.py:371-378 | Reaping takes exactly the uplinks that have been silent for 120.0 seconds or more and leaves the others as they were; a session stays if and only if an uplink was heard within 120.0 seconds |
| Liveness.FreshIsContact | turbobond/bond/server.py:267-272 | A fresh frame that closes nothing sets its uplink's last contact to the time it came and counts it as one more frame received |
| Liveness.StaleIsNoContact | turbobond/bond/server.py:267-269 | A stale or repeated counter leaves everything known of its uplink as it was, but for the address it moved to |
| Liveness.SurvivesReap | turbobond/bond/server.py:271-374 | After such a frame at t its uplink survives a reap at `now` if and only if now - t < 120.0 |
| Liveness.ReturnLinkIsLive | turbobond/bond/server.py:89-103 | Return traffic leaves over an uplink heard within 120.0 seconds, and there is no return link if and only if every uplink has been silent that long |
| Liveness.LoneReturnLink | turbobond/bond/server.py:89-103 | A session's only uplink is its return link if and only if it was heard within 120.0 seconds |
| Liveness.HeardTakesReturns | turbobond/bond/server.py:86-103 | From the frame to the return traffic: a session's only uplink, heard at t, takes its return traffic at `now` if and only if now - t < 120.0 |
| Tunnel.CopiesCarry | turbobond/bond/tunnel.py:311-332 | Every datagram of a stamped packet decodes to a data frame with that packet and its number, and receive state is untouched |
| Tunnel.CopiesSent | turbobond/bond/tunnel.py:319-332 | Of the bound links chosen, those up to the first whose id does not fit four octets each get one datagram, in that order, if the packet is at most 1600 octets: the i-th decodes to a DATA frame on the i-th link, under that link's next counter, with the packet and its number.  Every link tried has spent one counter, the failing one included; no other has |
| Tunnel.PacketSent | turbobond/bond/tunnel.py:311-332 | With no link chosen the packet is counted as dropped and nothing else happens; otherwise it takes the next number and exactly those datagrams leave |
| Tunnel.ControlCarries | turbobond/bond/tunnel.py:391-401 | Every control datagram decodes to a frame of its own kind, with number 0 and no payload |
| Tunnel.ControlSent | turbobond/bond/tunnel.py:391-401 | A control frame on a bound link whose id fits is exactly one datagram of its kind, under the link's next counter, with number 0 and no payload; an id that does not fit spends the counter and sends nothing |
| Tunnel.NoncesNeverRepeat | turbobond/bond/tunnel.py:66-68 | On one set of sockets, over any run of sends, the later of two datagrams of a link carries the larger counter, and no two datagrams of any links use one nonce |
| BondTunnelling.BondingTunnel.constructor | turbobond/bond/tunnel.py:87-112 | A new tunnel has sent nothing, bound nothing and holds an empty reorder buffer |
| BondTunnelling.BondingTunnel.NextSeq | turbobond/bond/tunnel.py:270-272 | Numbers are handed out consecutively, one per call |
| BondTunnelling.BondingTunnel.NextCounter | turbobond/bond/tunnel.py:66-68 | Only the named link's counter moves, by one |
| BondTunnelling.BondingTunnel.SendPacket | turbobond/bond/tunnel.py:311-332 | The loop over the chosen links puts on the wire, in order, exactly the datagrams `Tunnel.PacketSent` describes; no link drops the packet unnumbered; an encoding error ends it early with the counter spent |
| BondTunnelling.BondingTunnel.SendControl | turbobond/bond/tunnel.py:391-401 | The method puts on the wire exactly the datagram `Tunnel.ControlSent` describes and spends one counter of its link |
| BondTunnelling.BondingTunnel.HandshakeLink | turbobond/bond/tunnel.py:246-266 | The loop of three tries does what `Exchanges.HandshakeExactly` describes, datagrams, counter and flag included |
| BondTunnelling.BondingTunnel.BindLink | turbobond/bond/tunnel.py:174-207 | A bound link starts with a fresh counter and a fresh window; the other links keep theirs |
| BondTunnelling.BondingTunnel.HandleDatagram | turbobond/bond/tunnel.py:368-389 | The method does what `Returning.HearTakes` and `Exchanges.HeardMarks` describe: a datagram is rejected, or recorded in its own socket's window and then written, noted or ignored by type; nothing goes out |
| BondTunnelling.BondingTunnel.ReorderTick | turbobond/bond/tunnel.py:423-432 | A tick writes exactly what the reorder buffer releases |
| ConcentratorServing.ConcentratorServer.constructor | turbobond/bond/server.py:117-144 | A new concentrator knows no session, has rejected nothing and sent nothing |
| ConcentratorServing.ConcentratorServer.DatagramReceived | turbobond/bond/server.py:413-415 | Oversized datagrams change nothing at all; the rest are handled |
| ConcentratorServing.ConcentratorServer.HandleDatagram | turbobond/bond/server.py:240-289 | Refines the specified step: session and link created or moved before the window is asked, counters, reply and table exactly as specified |
| ConcentratorServing.ConcentratorServer.Dispose | turbobond/bond/server.py:274-289 | The branches on the frame type, including the session that disappears with its last link |
| ConcentratorServing.ConcentratorServer.SendControl | turbobond/bond/server.py:291-292 | A reply carries number 0 and no payload |
| ConcentratorServing.ConcentratorServer.Send | turbobond/bond/server.py:294-308 | The peer's counter is spent even when nothing can be encoded; one datagram to its current address otherwise |
| ConcentratorServing.ConcentratorServer.DispatchDownstream | turbobond/bond/server.py:341-348 | The first session in rank order with a live link gets the packet; the others are untouched |
| ConcentratorServing.ConcentratorServer.ReorderTick | turbobond/bond/server.py:350-362 | The loop ticks every session exactly once |
| ConcentratorServing.ConcentratorServer.ReapOnce | turbobond/bond/server.py:364-378 | The nested loops leave the table that `Liveness.ReapsTheSilent` describes |
| Concentrator.HandleKeyed | turbobond/bond/server.py:240-289 | After any datagram, genuine or not, every stored session is keyed by its own id, has at least one link, and has each link once |
| Concentrator.ReapKeyed | turbobond/bond/server.py:371-378 | Reaping keeps the table well formed, and a session survives exactly when one of its links does |
| Concentrator.PicksSpread | turbobond/bond/server.py:95-103 | Any m consecutive positions of the cursor modulo n hit each position floor(m/n) or ceil(m/n) times, wherever the cursor starts |
| Concentrator.ReturnsFollowPicks | turbobond/bond/server.py:92-103 | While the live links stay the same, each link's send counter grows by how often the cursor pointed at it |
| Concentrator.ReturnsSpread | turbobond/bond/server.py:92-103 | Over any m consecutive return packets with n unchanged live links, each link carries floor(m/n) or ceil(m/n) of them |
| Resequencer.DrainLoopReleases | turbobond/bond/reorder.py:118-144 | A drain hands out a prefix of the sorted queue, moves just past it, accounts for every number it skips, and stops only when nothing is due |
| Resequencer.FlushLoopReleases | turbobond/bond/reorder.py:146-163 | A flush hands out exactly the requested number of oldest packets, in order |
| Resequencer.RememberBounded | turbobond/bond/reorder.py:165-171 | Pruning keeps the seen set within four capacities: the survivors fit between the cutoff and the newest number |
| Resequencer.InsertAscending | turbobond/bond/reorder.py:97-98 | An accepted packet lands behind every smaller number and the queue stays strictly ascending |
| ReorderRuns.PushReleases | turbobond/bond/reorder.py:73-106 | One push, overflow included, is an abstract release from the queue with the new packet in it, and leaves at most `capacity` packets held |
| ReorderRuns.TickReleases | turbobond/bond/reorder.py:173-180 | A tick is an abstract release that counts its gaps; afterwards nothing is held, or the head is ahead and unexpired, unless still priming |
| ReorderRuns.FlushReleases | turbobond/bond/reorder.py:182-193 | A shutdown flush releases everything held, in order, and holds nothing afterwards |
| ReorderRuns.ForceFlushReleases | turbobond/bond/reorder.py:146-163 | An overflow flush leaves exactly half a capacity behind |
| ReorderRuns.RunInvariant | turbobond/bond/reorder.py:73-193 | Order, accounting and position invariants hold throughout every run |
| ReorderRuns.RunsAreOrdered | turbobond/bond/reorder.py:73-193 | For every run of a new buffer: released followed by held is strictly increasing and is exactly the accepted packets, held stays within `capacity`, seen within 4 * `capacity` |
| ReorderRuns.RunsBalance | turbobond/bond/reorder.py:73-193 | For every run: pushes = delivered + held + duplicates + late drops; the distance from the stream start is at least delivered + gap skips, with equality when no overflow flush or shutdown happened |
| ReorderStatistics.StatisticsAreTrue | turbobond/bond/reorder.py:73-193 | Over every run the counts of duplicates, late drops, packets out of turn and overflow flushes are sums over what each arrival met, and the longest queue is the longest there was |
| ReorderStatistics.ResetIsNew | turbobond/bond/reorder.py:205-212 | After a reset the buffer is a new one of the same size but for its statistics |
| ReorderStatistics.NewSizes | turbobond/bond/reorder.py:54-69 | A new buffer waits the given milliseconds and never less than none, has room for the given number of packets and never less than 8, and holds and counts nothing |
| ReorderRuns.FirstCopiesOnly | turbobond/bond/reorder.py:87-95 | A push is accepted if and only if its number is not behind the position and was never accepted before, although old numbers have been pruned |
| ReorderStatistics.DuplicatesTold | turbobond/bond/reorder.py:87-95 | Over every run, what is called a duplicate really was accepted before, and what is held, or was accepted and is within reach of the memory, is always called one |
| ReorderRuns.GuardsNeverFire | turbobond/bond/reorder.py:119-163 | Removing the `head < next_seq` guards changes no result of a drain or a flush, on any queue a run can reach; that the `entry is None` guards never fire is the pairing of heap and map every method of the class keeps |
| Pruning.PruningIsInvisible | turbobond/bond/reorder.py:165-171 | A buffer that prunes, one that never forgets and one with no memory release and hold the same packets on every run; only the duplicate / late split differs, and its sum does not |
| ReorderTiming.StallBound | turbobond/bond/reorder.py:110-144 | A packet accepted while m numbers below it are missing is still held at a tick only while less than m timeouts and m - 1 ticker periods have elapsed, over every later run of packets and ticks in which no packet comes more than a period after the last tick |
| ReorderTiming.ReachableLive | turbobond/bond/reorder.py:73-180 | Every such run from a new buffer reaches, once priming is over, a state the timing results start from |
| ReorderPunctual.SingleTimeout | turbobond/bond/reorder.py:133-143 | When no two neighbouring numbers below it are missing, no tick a timeout after its arrival finds the packet still held, whatever arrives between the ticks |
| ReorderPunctual.WideGapOverstays | turbobond/bond/reorder.py:133-143 | Whenever two neighbouring numbers below a held packet are missing and there is room for one more, a run on a regular ticker of any period leaves the packet held a timeout later |
| ReorderPunctual.OneTimeoutExactly | turbobond/bond/reorder.py:3-7 | The documented one-timeout promise holds over every continuation on the ticker if and only if, in the buffer the push leaves, the packet is out already or no two neighbouring numbers below it are both missing, or there is no timeout at all |
| ReorderPunctual.OneTimeoutForeseen | turbobond/bond/reorder.py:3-7 | The same read off the buffer before the push, when nothing in it is due and it has room |
| Restoration.DrainInTime | turbobond/bond/reorder.py:119-144 | Draining a queue whose first waiting packet has not expired hands out exactly the gapless front and skips nothing |
| Restoration.SkipsExactlyWhenLate | turbobond/bond/reorder.py:133-143 | A drain gives up on a missing number if and only if the first packet behind the gapless front has expired |
| Restoration.SmoothRun | turbobond/bond/reorder.py:87-144 | From any point mid-run, arrivals that cover the rest of the stream in time come out as exactly that rest |
| Restoration.LosslessRestoration | tests/test_reorder.py:59-81 | Any arrival order, with repeats, of every packet of a run that fits the buffer and beats the deadlines comes out complete and ascending, leaving nothing held and `gap_skips` unchanged |
| Restoration.PromptIsSmooth | turbobond/bond/reorder.py:87-144 | Arrivals within one timeout of packets that all fit the buffer are never late and never overflow it |
| Restoration.PromptRestoration | tests/test_reorder.py:59-81 | With every packet of a run arriving within one timeout, in any order and with repeats, and room for the run, exactly the run comes out |
| Opening.PrimingFindsStart | turbobond/bond/reorder.py:78-85 | Over any opening within one timeout, in any order, with any repeats, of no more different packets than fit, nothing is handed out or counted late, exactly what arrived is held, and the position ends at the earliest number |
| Opening.LosslessFromStart | turbobond/bond/reorder.py:64-69 | A new buffer that gets its opening in any order, a tick once priming is over, and the rest smoothly, hands out every packet from the earliest one on, in order, skipping nothing |
| Skew.ReorderingInvisible | turbobond/bond/reorder.py:1-11 | A new buffer gets the packets of a stream in any order, with any repeats and with ticks at any times; if no packet first arrives a timeout or more after one behind it and there is room for what has to wait, exactly the stream comes out, from its very first packet on, and nothing is skipped |
| Skew.BurstIsManageable | tests/test_bonding_datapath.py:86-96 | Both conditions hold for every burst that fits the buffer and arrives within one timeout of its first packet |
| Skew.ArriveKeeps | turbobond/bond/reorder.py:73-106 | One arrival, priming or not, first copy or not, keeps this: what is out is the stream up to the position, what is held is what has arrived beyond it, and the next packet is yet to come |
| Skew.TimerKeeps | turbobond/bond/reorder.py:173-180 | A tick at any time keeps it too |
| Reorder.HeapPush | turbobond/bond/reorder.py:98 | heappush by contract: the number is added and the order of the rest kept |
| Reorder.ReorderBuffer.constructor | turbobond/bond/reorder.py:54-69 | Negative timeouts become 0, capacities below 8 become 8, and nothing is held |
| Reorder.ReorderBuffer.Push | turbobond/bond/reorder.py:73-106 | Heap, pending map, seen set and statistics together do exactly what the resequencer's push does, and pair up again afterwards |
| Reorder.ReorderBuffer.StartOrRewind | turbobond/bond/reorder.py:78-85 | The first packet opens priming; an earlier one rewinds the start while it lasts |
| Reorder.ReorderBuffer.QueueUp | turbobond/bond/reorder.py:97-101 | Heap and map take the packet together, at its place in the sorted queue |
| Reorder.ReorderBuffer.Drain | turbobond/bond/reorder.py:110-144 | The popping loop releases exactly what the specified drain releases |
| Reorder.ReorderBuffer.ForceFlush | turbobond/bond/reorder.py:146-163 | The overflow loop releases exactly the oldest packets the specification names |
| Reorder.ReorderBuffer.Flush | turbobond/bond/reorder.py:182-193 | The shutdown loop releases everything in order |
| Reorder.ReorderBuffer.AdvanceTo | turbobond/bond/reorder.py:165-171 | The position moves past the packet and the seen set is pruned by the cutoff |
| Reorder.ReorderBuffer.PopHead | turbobond/bond/reorder.py:127-128 | The smallest number leaves heap and map together |
| Reorder.ReorderBuffer.Tick | turbobond/bond/reorder.py:173-180 | A tick drains at the given time |
| Reorder.ReorderBuffer.Reset | turbobond/bond/reorder.py:205-212 | Reset forgets the stream and keeps the statistics |
| Scheduler.TotalPositive | turbobond/links/model.py:105-117 | Usable links weigh at least 0.001 each, so the branch for a non-positive total weight is dead |
| Scheduler.Heaviest | turbobond/bond/scheduler.py:166-183 | Some candidate weighs at least the average |
| Scheduler.CreditRange | turbobond/bond/scheduler.py:180-183 | Every credit is positive and at most one quantum per candidate, and the heaviest candidate gets a full quantum |
| Scheduler.Quickest | turbobond/bond/scheduler.py:142-143 | The lowest-latency choice is minimal, and the first of equals |
| SchedulerFairness.ScanNearest | turbobond/bond/scheduler.py:171-178 | A scan finds the nearest candidate after the cursor that can pay, and fails only when none can |
| SchedulerFairness.PickIsEarliest | turbobond/bond/scheduler.py:170-183 | The winner is the nearest payer after the fewest credit rounds that make anyone able to pay, and only the winner is charged |
| SchedulerFairness.FallbackUnreachable | turbobond/bond/scheduler.py:166-186 | With n usable links and a packet of at most (2n+1) quanta the retry budget always suffices, after at most ceil(packet / quantum) credit rounds |
| SchedulerFairness.FallbackExactly | turbobond/bond/scheduler.py:170-186 | The fallback is taken if and only if no candidate could pay even after 2n+1 credit rounds, for every packet |
| SchedulerFairness.DeficitsBounded | turbobond/bond/scheduler.py:126-186 | Every reachable deficit lies in [0, L + quantum * n), whatever links, weights, modes and packets come and go |
| SchedulerFairness.SelectConserves | turbobond/bond/scheduler.py:157-186 | One packet: every candidate gains the same number of credit rounds and pays for exactly the bytes it carries |
| SchedulerFairness.RunConserves | turbobond/bond/scheduler.py:157-186 | Over a run of any length every candidate's books balance against one common number of credit rounds |
| SchedulerFairness.ByteFair | turbobond/bond/scheduler.py:157-164 | Bytes carried per unit of weight differ between two links by less than a constant independent of the run's length |
| SchedulerFairness.ByteFairByBase | turbobond/bond/scheduler.py:157-164 | The same in terms of the adjusted weight itself: for links at or above the floor, bytes carried divided by that weight differ by less than a constant independent of the run |
| SchedulerFairness.WeightIsBase | turbobond/links/model.py:105-117 | A usable link weighs its adjusted weight, or 0.001 if that is less; an unusable one nothing |
| SchedulerChoice.ServesEligible | turbobond/bond/scheduler.py:112-155 | A packet is dropped only when no link is usable; every chosen link is usable, and ready if any usable one is; none is chosen twice; copies go to all eligible links and only for critical packets or in redundant mode; the lowest-latency choice is as quick as any |
| SchedulerChoice.QuickestExactly | turbobond/bond/scheduler.py:142-143 | The lowest-latency mode takes the first candidate no other beats in round-trip milliseconds, where 0.01 and less count as equal |
| SchedulerChoice.ChosenPay | turbobond/bond/scheduler.py:151-154 | The packet is charged to exactly the links it was given to; credit and debt never touch the statistics |
| SchedulerChoice.StatisticsAreTrue | turbobond/bond/scheduler.py:126-155 | Over every run, whatever links come and go, each link's counters grow by exactly the packets it was chosen for, and every packet offered was placed or counted as dropped |
| SchedulerChoice.TotalsAreTrue | turbobond/bond/scheduler.py:146-150 | Packets, bytes, duplications and drops are the sums over the choices made, over every run |
| SchedulerChoice.Relinked | turbobond/bond/scheduler.py:96-107 | New links leave every known book untouched, open an empty one for each new link and no other, and reset the cursor |
| SchedulerChoice.LastInLine | turbobond/bond/scheduler.py:170-178 | The link just served comes last: if another candidate can pay for the next packet, that packet goes to one that can and not to the link that got this one |
| SchedulerChoice.OversizeGoesToHeaviest | turbobond/bond/scheduler.py:185-186 | A packet nobody can pay for within the retry budget goes to the first of the heaviest candidates, and the cursor stays |
| BondScheduling.BondScheduler.constructor | turbobond/bond/scheduler.py:79-92 | A new scheduler has empty books for exactly its links |
| BondScheduling.BondScheduler.SetLinks | turbobond/bond/scheduler.py:96-107 | Replacing the links resets the cursor and keeps the books of links seen before |
| BondScheduling.BondScheduler.Select | turbobond/bond/scheduler.py:126-155 | Chooses, charges and counts as specified, in every mode, and counts a drop when nothing is usable |
| BondScheduling.BondScheduler.WeightedPick | turbobond/bond/scheduler.py:157-186 | The nested loops pick the specified winner and leave the specified deficits and cursor |
| BondScheduling.BondScheduler.CreditRound | turbobond/bond/scheduler.py:179-183 | One pass credits each candidate its share of the round |
| Replay.ReplayWindow.constructor | turbobond/bond/protocol.py:152-155 | A new window has accepted nothing |
| Replay.ReplayWindow.CheckAndUpdate | turbobond/bond/protocol.py:157-178 | Answers exactly as a set of accepted counters with a window would, keeps bit k set exactly when `highest - k` was accepted, and never accepts a counter again |
| Replay.JumpBits | turbobond/bond/protocol.py:162-165 | After a jump of a whole window only the new counter is remembered, and one bit says so |
| Replay.SlideBits | turbobond/bond/protocol.py:166-168 | Shift, or and mask move every remembered counter to its new distance and drop exactly those out of the window |
| Replay.MarkBits | turbobond/bond/protocol.py:171-178 | Setting one bit records exactly one more counter |
| Replay.BitmapBounded | turbobond/bond/protocol.py:167 | The bitmap never needs more than `size` bits |
| Replay.NeverTwice | turbobond/bond/protocol.py:144-178 | No run lets a counter through twice or one accepted before, and what was let through is what is remembered |
| Replay.FreshExactly | turbobond/bond/protocol.py:157-178 | After any history a new window takes a counter if and only if it is not 0, has not been let through, and lies less than 4096 behind everything that has |
| Replay.NearlyInOrderAllPass | turbobond/bond/protocol.py:144-178 | Reordering by less than a window costs nothing: a counter passes if and only if it arrives and was not accepted before |
| Protocol.EncodeFrame | turbobond/bond/protocol.py:98-115 | Encoding succeeds if and only if the payload is at most MAX_PAYLOAD and the link id fits four octets |
| Protocol.HeaderLayout | turbobond/bond/protocol.py:69-77 | The twenty octets in order: `TB`, version 1, the type as 1 to 6, then session id, link id and counter, big-endian in four, four and eight octets |
| Protocol.FrameLayout | turbobond/bond/protocol.py:98-115 | A legal frame is that header, then the sealing, bound to the header, of the big-endian number followed by the payload, 44 octets longer than the payload |
| Protocol.RefusedDatagrams | turbobond/bond/protocol.py:80-141 | Anything under 44 octets, of another magic or version, or of a type outside 1 to 6 is refused before any key is used |
| Protocol.ParsePackedHeader | turbobond/bond/protocol.py:69-95 | Parsing a packed header gives back the type and the masked numbers, whatever follows it |
| Protocol.PackParsedHeader | turbobond/bond/protocol.py:69-95 | A header that parses is the packing of its own fields |
| Protocol.DecodeAfterEncode | turbobond/bond/protocol.py:98-141 | Decoding an encoded frame gives back every number reduced to its field and the payload untouched, and the datagram never exceeds MAX_DATAGRAM |
| Protocol.EncodeAfterDecode | turbobond/bond/protocol.py:98-141 | A datagram that decodes is byte for byte the encoding of what it decodes to |
| Protocol.FrameRoundTrip | turbobond/bond/protocol.py:98-141 | In-range frames survive the wire exactly |
| Protocol.EncodeInjective | turbobond/bond/protocol.py:98-115 | Two different in-range frames never share a datagram |
| Protocol.SizeGate | turbobond/bond/server.py:413-415 | A genuine datagram passes the size gate if and only if its payload is legal |
| Crypto.Sealer.OpenAfterSeal | turbobond/util/crypto.py:62-73 | What was sealed opens to the same plaintext, for every keystream and tag function |
| Crypto.Sealer.SealAfterOpen | turbobond/util/crypto.py:62-73 | Only one ciphertext opens to a given plaintext |
| Crypto.Sealer.OpensOnlyUnderItsTag | turbobond/util/crypto.py:62-73 | A sealed text opens under another link, counter or header if and only if the tags agree there |
| Nonces.NonceReads | turbobond/util/crypto.py:57-60 | A nonce has twelve octets; the first four read back as the link id and the last eight as the counter modulo 2^64; a link id that does not fit four octets has none |
| Nonces.NonceInjective | turbobond/util/crypto.py:57-60 | Two nonces agree only for one link and one counter below 2^64 |
| Monitor.SlowReturn | turbobond/links/monitor.py:89-104 | After any failed probe at least four answers, and six if it left the link DOWN, before it is UP again, however good they look |
| Monitor.SlowReturnAlways | turbobond/links/monitor.py:60-104 | The same over every probe history of a new link |
| Monitor.FastExit | turbobond/links/monitor.py:89-94 | Two failures in a row put any link DOWN |
| Monitor.OutagesLast | turbobond/links/monitor.py:89-104 | Between DOWN and UP lie at least six probes, over every history |
| Monitor.ReturnIsThatFast | turbobond/links/monitor.py:89-104 | The bounds four and six are reached by perfect answers |
| Monitor.ThresholdSkippedExactly | turbobond/links/monitor.py:101-104 | Over every probe history of a new link, an answer makes it UP before the third success in a row if and only if no probe has ever failed, fewer than two successes precede it, the link is neither DOWN nor UNKNOWN, and its averages end up clean |
| Monitor.SecondAnswerSuffices | turbobond/links/monitor.py:101-104 | A new link is UP from its second fine answer on, so the threshold of three is not what holds links back |
| Monitor.EnabledIsTrusted | turbobond/links/monitor.py:63-65 | A link that was disabled and enabled is UP with its first clean answer |
| Monitor.LossFades | turbobond/links/model.py:37-53 | No probe pulls the loss average down by more than a factor 0.7 |
| Monitor.UpIsClean | turbobond/links/monitor.py:89-104 | UP is only ever declared with no failure on record and loss, delay and jitter averages all below their thresholds |
| Monitor.DownMeansSilence | turbobond/links/monitor.py:89-104 | In every run of a new link, DOWN is only ever the state right after a failed probe |
| Monitor.EveryProbeDecides | turbobond/links/monitor.py:60-104 | What each probe makes of each link, by the thresholds: DISABLED when switched off, DEGRADED at the first silence, DOWN at the second, and after an answer UP if and only if the averages are below 8 %, 400 ms and 80 ms and the link was neither DOWN nor UNKNOWN or this is its third success |
| Monitor.AnswersSmooth | turbobond/links/model.py:37-45 | An answer leaves seven tenths of each average's distance to the sample; a delay or jitter average still at zero takes the sample as it is |
| Monitor.FailureSmooths | turbobond/links/model.py:47-53 | A silence leaves seven tenths of the loss average's distance to 100 and the other averages as they are |
| Monitor.FirstAnswer | turbobond/links/model.py:20-45 | A new link's first answer sets its delay and jitter outright and its loss to three tenths |
| Monitor.AveragesConverge | turbobond/links/model.py:37-45 | After k equal answers with positive delay and jitter every average has kept exactly 0.7^k of its distance to them |
| LinkMonitoring.LinkHealth.RecordSuccess | turbobond/links/model.py:37-45 | The averages move by the smoothing rule, the first sample is taken as it is, and the streaks turn |
| LinkMonitoring.LinkHealth.RecordFailure | turbobond/links/model.py:47-53 | The loss average rises, capped at 100, and the streaks turn |
| LinkMonitoring.LinkMonitor.ProbeLink | turbobond/links/monitor.py:60-87 | One cycle reads the operator's switch, changes the probed link's averages and state as specified, lets the observed throughput only raise its capacity, and calls back exactly when its state changed |
| LinkMonitoring.LinkMonitor.Transition | turbobond/links/monitor.py:106-125 | The callback sees every change once, with the old and the new state |
| LinkMonitoring.LinkMonitor.ProbeAll | turbobond/links/monitor.py:127-129 | A round probes every link once and none disturbs another |
| Selector.ApplyValid | turbobond/transport/selector.py:108-226 | Exactly one route carries the active flag, the one in force, and no route has both a failure and a success streak, after every evaluation, check or operator choice |
| Selector.RunValid | turbobond/transport/selector.py:108-226 | The same in every reachable state |
| Selector.NewIsValid | turbobond/transport/selector.py:76-94 | A new selector is valid, prefers and uses its default route and knows nothing of either |
| Selector.CheckCoherent | turbobond/transport/selector.py:108-149 | A check never moves the active flag, never adds more than one to a streak, and marks the route healthy exactly when the probe passed |
| Selector.StreaksExactly | turbobond/transport/selector.py:108-149 | A passing check adds one success and clears the failures; a measured probe that fails or a refusing availability hook adds exactly one failure and clears the successes; an exception leaves both streaks alone; a hook that raised leaves the availability alone |
| Selector.FailuresAddUp | turbobond/transport/selector.py:108-149 | k such failures in a row raise the failure count by exactly k |
| Selector.FailsOver | turbobond/transport/selector.py:199-217 | While the preferred route is in force and fails every round, the alternate passes and the switch works, n rounds switch if and only if they bring its failures to F, and then exactly once |
| Selector.OutageMovesTraffic | turbobond/transport/selector.py:199-226 | From any valid state, F or more such rounds leave the other route in force, after exactly one switch, whichever route is preferred |
| Selector.NewFailsOver | turbobond/transport/selector.py:199-217 | A new selector whose route fails from the start moves in round F and not before |
| Selector.SwitchExactly | turbobond/transport/selector.py:153-181 | A switch succeeds if and only if the route is in force already, or the switch works and no hook says the route is unavailable; refused, failed and idle switches change nothing, a real one moves the flag and counts |
| Selector.FailingRouteStays | turbobond/transport/selector.py:199-217 | After an evaluation a route with F or more failures is still active only if the alternate is unusable or the switch failed |
| Selector.NoFlapping | turbobond/transport/selector.py:192-226 | After an automatic switch none of the next min(F, 4) - 1 rounds switches again |
| Selector.ComesHome | turbobond/transport/selector.py:219-226 | Four rounds in which the preferred route passes bring it back into force, whatever happened before |
| Selector.PreferenceHolds | turbobond/transport/selector.py:183-226 | Whatever the operator's own switch did, four rounds in which the newly preferred route passes have it in force |
| RouteSelection.RouteSelector.constructor | turbobond/transport/selector.py:76-94 | A new selector starts in a valid state |
| RouteSelection.RouteSelector.CheckRoute | turbobond/transport/selector.py:108-149 | Each early return and each exception updates only the checked route, as specified |
| RouteSelection.RouteSelector.SwitchTo | turbobond/transport/selector.py:153-181 | A refused or failed switch changes nothing; a successful one moves the flag and counts |
| RouteSelection.RouteSelector.SetPreferred | turbobond/transport/selector.py:183-190 | The preference is kept even when the switch fails |
| RouteSelection.RouteSelector.Evaluate | turbobond/transport/selector.py:192-226 | One decision cycle does what is specified and keeps the state valid |
| KotlinProtocol.UShiftOctet | android/core/src/main/kotlin/com/aegisdigital/turbobond/core/Crypto.kt:64-65 | An unsigned shift by eight bits drops exactly the lowest octet |
| KotlinProtocol.BigEndianOctet | android/core/src/main/kotlin/com/aegisdigital/turbobond/core/Crypto.kt:62-67 | Octet i of a big-endian field is the value shifted right by the octets after it |
| KotlinProtocol.Nonce | android/core/src/main/kotlin/com/aegisdigital/turbobond/core/Crypto.kt:62-67 | The shifting loops, on signed numbers, fill the same twelve octets Python's `to_bytes` produces, which `Nonces.NonceReads` reads back |
| KotlinProtocol.PackHeader | android/core/src/main/kotlin/com/aegisdigital/turbobond/core/Protocol.kt:25-33 | Both packers produce the same twenty octets for signed and unsigned readings of the numbers |
| KotlinProtocol.Encode | android/core/src/main/kotlin/com/aegisdigital/turbobond/core/Protocol.kt:35-54 | Both encoders produce the same datagram, or refuse the same payloads |
| KotlinProtocol.Decode | android/core/src/main/kotlin/com/aegisdigital/turbobond/core/Protocol.kt:57-81 | Both decoders accept the same byte strings and read the same frame modulo two's complement, despite their different length checks |
| KotlinProtocol.OpenTooShort | turbobond/bond/protocol.py:127-131 | The length check only Python makes before opening decides nothing: shorter ciphertexts never yield a usable plaintext |
| KotlinProtocol.Seal | android/core/src/main/kotlin/com/aegisdigital/turbobond/core/Crypto.kt:72-79 | Sealing agrees with the Python sealer |
| KotlinProtocol.Open | android/core/src/main/kotlin/com/aegisdigital/turbobond/core/Crypto.kt:82-93 | Opening agrees with the Python sealer, failures included |
| KotlinReorder.PushRests | android/core/src/main/kotlin/com/aegisdigital/turbobond/core/Reorder.kt:30-51 | A push of an ordinary number is the same abstract step, and leaves everything held strictly ahead of the position and below capacity |
| KotlinReorder.TickRests | android/core/src/main/kotlin/com/aegisdigital/turbobond/core/Reorder.kt:59-62 | A tick is an abstract step, and an overdue one with something pending always releases |
| KotlinReorder.DrainLeavesAhead | android/core/src/main/kotlin/com/aegisdigital/turbobond/core/Reorder.kt:70-78 | Draining releases the contiguous prefix and leaves the rest strictly ahead of the position |
| KotlinReorder.NothingDrained | android/core/src/main/kotlin/com/aegisdigital/turbobond/core/Reorder.kt:47-48 | When nothing was contiguous the queue is untouched, so the flush finds the packet just put in |
| KotlinReorder.FlushRests | android/core/src/main/kotlin/com/aegisdigital/turbobond/core/Reorder.kt:81-87 | Flushing the oldest releases something and comes to rest |
| KotlinReorder.RunsAreOrdered | android/core/src/main/kotlin/com/aegisdigital/turbobond/core/Reorder.kt:30-87 | Every run through a new buffer: output strictly increasing and followed by what is held, every packet one that arrived, held below capacity |
| KotlinSkew.ReorderingInvisible | android/core/src/main/kotlin/com/aegisdigital/turbobond/core/Reorder.kt:9-87 | Through a new Android buffer a stream whose first packet arrives first comes out complete and in order, whatever the timer does, if no packet first arrives a timeout or more after one behind it and none a capacity or more ahead of a missing one |
| KotlinReorder.WrapsAtTheEnd | android/core/src/main/kotlin/com/aegisdigital/turbobond/core/Reorder.kt:70-78 | After the number 2^63 - 1 the position is negative, and a smaller number is handed out as if it opened a stream |
| KotlinTiming.StallBound | android/core/src/main/kotlin/com/aegisdigital/turbobond/core/Reorder.kt:30-87 | A packet accepted while m numbers below it are missing, and held next to a larger number or to the number just below, is held for at most m timeouts and m - 1 timer periods, over every later run of ordinary numbers on the timer |
| KotlinTiming.StallBoundedExactly | android/core/src/main/kotlin/com/aegisdigital/turbobond/core/Reorder.kt:9-12 | A held packet has a stall bound over every later run if and only if the timeout is 0, a larger number is held, or the number just below is |
| KotlinTiming.HeldForever | android/core/src/main/kotlin/com/aegisdigital/turbobond/core/Reorder.kt:38-39 | Any other held packet is still held n milliseconds later when a copy of it arrives every millisecond, on a timer of any period, for every n |
| KotlinTiming.StallsFromNew | android/core/src/main/kotlin/com/aegisdigital/turbobond/core/Reorder.kt:38-39 | Such a run exists from an empty buffer, for every timeout and every capacity of two or more |
| KotlinTiming.ReachableFresh | android/core/src/main/kotlin/com/aegisdigital/turbobond/core/Reorder.kt:30-87 | Every run of ordinary numbers on the timer, from a new buffer, reaches only states these results start from |
| KotlinBuffer.ReorderBuffer.Push | android/core/src/main/kotlin/com/aegisdigital/turbobond/core/Reorder.kt:30-51 | The object does what is specified, and never asks an empty map for its first key |
| KotlinBuffer.ReorderBuffer.DrainContiguous | android/core/src/main/kotlin/com/aegisdigital/turbobond/core/Reorder.kt:70-78 | The loop terminates and removes exactly the contiguous prefix |
| KotlinBuffer.ReorderBuffer.FlushOldest | android/core/src/main/kotlin/com/aegisdigital/turbobond/core/Reorder.kt:81-87 | Skips to the oldest packet and drains from there |
| KotlinBuffer.ReorderBuffer.Tick | android/core/src/main/kotlin/com/aegisdigital/turbobond/core/Reorder.kt:59-62 | Releases only when something is pending and overdue |
| Provision.UnitRoundTrip | turbobond/bond/provision.py:72-96 | Reading back the unit of any settings with a non-empty hex key and dotted addresses gives exactly its key, port and two addresses; no other line disturbs them |
| Provision.ReinstallKeepsKey | turbobond/bond/provision.py:123-132 | Reinstalling with the key that was read back leaves the same key readable |
| Provision.SplitJoined | turbobond/bond/provision.py:147 | Splitting printed lines gives back those lines |
| Provision.BlandSetsNothing | turbobond/bond/provision.py:147-156 | A line whose first visible characters rule out every parsed prefix, bare or indented as the unit indents, sets nothing |
| Provision.PskSets | turbobond/bond/provision.py:149-150 | The key line sets exactly the key that was printed |
| Provision.ListenSets | turbobond/bond/provision.py:151-152 | The listen line sets exactly the port that was printed, for every integer |
| Provision.LocalCidrSets | turbobond/bond/provision.py:153-154 | The address line sets exactly the server address, without its prefix length |
| Provision.PeerIpSets | turbobond/bond/provision.py:155-156 | The peer line sets exactly the peer address, without the continuation |
| Provision.ReadInstalled | turbobond/bond/provision.py:142-160 | The parsing loop computes what the line-by-line specification says, exceptions included |

## Left out

- EndToEnd.UpstreamInOrder: the client's numbers are taken to stay below 2^64, and foreign datagrams are any that do not authenticate to this session; that nobody without the key can make one, and that nobody sends the session's own return traffic back at the server, is not modelled.
- EndToEnd.DownstreamInOrder: one Session object and datagrams that are its own or do not authenticate; the client does not check the session id, so a second session under the same key on the same socket is not covered.
- EndToEnd.RunKeeps: claims are per Session object; a session that is closed or reaped and comes back starts a fresh buffer and fresh counters.
- Tunnel.NoncesNeverRepeat: one direction and one set of sockets; a rebound link, a restart and the opposite direction start counting again under the same key.
- ReorderTiming.StallBound: starts from a primed buffer; the wait of the priming phase itself is not part of the bound.
- ReorderPunctual.OneTimeoutExactly: leaves out the one case of a buffer filled exactly to its capacity by the push, where the next packet makes it overflow and release early.
- KotlinReorder.RunsAreOrdered: numbers from 0 to 2^63 - 2; beyond that `nextSeq++` wraps to a negative number, which the code reads as a buffer that has not started. Its clock arithmetic does not wrap.
- KotlinTiming.StallBound: takes a timer that runs at least once a period and, like the equivalence, non-negative timeouts and ordinary numbers.
- Opening.LosslessFromStart: the opening must fit the buffer and the timer must run once before the rest arrives; `Skew.ReorderingInvisible` does without.
- Skew.ReorderingInvisible: the two conditions are sufficient; a late packet whose gap happens to stand behind another one can still get through.
- KotlinSkew.ReorderingInvisible: this buffer has no priming phase, so the first packet has to arrive first; the conditions are sufficient, as above.
- Delivery.Delivered: one session that is new to the server, with no close, reaping or rebinding while it lasts.
- Returning.Returned: a client that has heard nothing yet and is not rebound while it lasts; each datagram comes in at the socket of its own link, and the session never sets a counter back.
- Exchanges.HandshakeCompletes: the timeout of a try is an answer that never comes; the dry-run shortcut and several links handshaking at once are not modelled.
- SchedulerFairness.ByteFair: fixed candidates and weights and no duplicated packets, as weights that move have no fair share to compare with.
- Provision.UnitRoundTrip: the MTU and the reorder time are not read back by the source and come out as defaults; `int()` of digits outside ASCII or with underscores, and the printing of a float, are not modelled.
- heapq is taken by contract, as a list kept in ascending order; its array layout is not modelled.
- The sessions map, peer links, link sockets, route statuses and counters are values stored back into their map, so sharing of these objects is not modelled; server and tunnel hold the reorder buffer and the replay window as the values their classes are proved to implement.
- The scheduler sees its links as values; `BondScheduler.Rehealth` stands for the monitor changing a shared link in place.
- The ranking of sessions by creation time in `_dispatch_downstream` is an input, so ties are covered in either order.
- ChaCha20-Poly1305 (section 2.8 of RFC 8439) is an arbitrary keystream and an arbitrary 16-octet tag; secrecy, unforgeability and key derivation are not part of this model.
- `effective_weight` is an arbitrary base with its 0.001 floor; the square root, the latency curve and floating-point rounding are not modelled, all averages and deficits are real numbers.
- The simulated and dry-run devices, the keepalive timer, byte and packet totals of a socket, and link readiness in `refresh_links` only feed inputs that are arbitrary here.
- `share_estimate`, `aggregate_capacity_mbps`, `is_critical_packet`, snapshots and dashboard values only compute views.
- Sockets, asyncio, TUN devices, firewall rules and the wall clock are inputs and outputs of steps.
- The router client, SIP rules, LAN gateway, MPTCP, shadowsocks, discovery, activation, the web application and the Android user interface are not modelled.
