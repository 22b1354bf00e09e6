# FlexStack: verified model of the C-ITS stack

FlexStack is a Python implementation of the ETSI C-ITS protocol stack. This project models the
parts of it whose correctness is a matter of protocol state and arithmetic, and proves what they
keep over every run.

| files | what they model |
|---|---|
| Bits, Headers, Packets, Lifetimes | the wire formats of GeoNetworking, as or-ed shifts and masks over integers and octets |
| Timestamps, DuplicateDetection, LocationTable | the wrapping clock, duplicate packet detection, the location table as objects and as values |
| Station, Flooding | one station handling TSB and LS Request packets, and a network of stations flooding them |
| LocationService, LocationServiceRuns | the Location Service: buffers, counters, retransmit timers, and all interleavings of its locked sections |
| Cbf, GeoBroadcast, Suppression | contention-based forwarding, GBC and GAC handling, and contention behind duplicate detection |
| AdaptiveDcc, GateKeeper, ReactiveDcc | congestion control and packet admission |
| Certificates, CertificateLibrary, TrustChains | certificate verification and the trust store |
| Cam, CheckTimers, PathHistory, GenerationDeltaTime | CAM generation, and the timers that trigger it |
| Ldm | expiry in the local dynamic map |
| Btp | BTP over single-hop broadcast, end to end |

Where the program updates objects the model has classes. Each method is proved equal to a function
on values (`View()` gives the value), and the theorems about runs are about those functions: a run
is a list of steps, each enabled in the state it is taken in, with the states it goes through, so a
theorem about runs holds for every order of arrivals, timer expiries and losses. Exceptions are `Err` results. Locks
make atomic steps; between two locked sections anything else may happen. Time stamps, geometry,
link-layer success and the verdicts of hash and signature functions are parameters.

## What the proofs brought out

Each of these is stated with its exact condition in the table below.

- A position vector stamped 0 is overwritten by anything that comes next (`Timestamps.NewestWins`).
- Negative latitudes or longitudes cannot be encoded at all: `to_bytes` raises (`Headers.LpvOred`, `Headers.LpvRoundTrip`).
- LS Requests put the mobility bit in flag bit 0 instead of bit 7, so forwarders clear it (`Packets.LsRequestForwarding`).
- GAC forwarding tests the new hop limit for 0 only, so a packet received with 0 leaves with 255 (`GeoBroadcasts.GacHopLimitExactly`).
- Duplicate detection runs before contention-based forwarding, so the copy that should suppress a buffered packet is dropped unless the duplicate list has forgotten it (`Suppression.SuppressesExactly`, `Suppression.SecondCopyIgnored`, `Suppression.FirstPacketContends`).
- A Location Service timer may expire before it is registered, and then the thread that began the search may cancel the only timer left (`LocationServiceRuns.StallsExactly`, `LocationServiceRuns.EarlyExpiryStalls`); or late, after its reply, and then it searches for an address nobody seeks (`LocationServiceRuns.KeysKeptExactly`, `LocationServiceRuns.LateExpirySearches`). Dropping the entry of a pending address loses its queue (`LocationServiceRuns.OverwritingExactly`, `LocationServiceRuns.DroppedEntryLosesRequests`).
- The late expiry of a cancelled contention timer sends the suppressed packet when its key is buffered again (`Contention.OwnTimersKeptExactly`, `Contention.LateExpirySendsSuppressed`).
- When storing a CAM in the local dynamic map raises, the CAM is on the air but not recorded, and the next check repeats its containers (`CamTransmission.SchedulesSafeExactly`, `CamTransmission.UnrecordedFirstCam`).
- Starting the CAM service again while a check of before is not over makes a second chain of check timers (`CheckTimers.OneChainRunsExactly`); with an unrecorded CAM even the 100 ms spacing is lost then (`CamTransmission.SpacedExactly`, `CheckTimers.OverlapBreaksSpacing`).
- A sweep of the local dynamic map can delete an unexpired record in place of an equal, expired one (`LocalDynamicMap.SweepIsFilterExactly`, `LocalDynamicMap.ClockPassesExpiry`).
- A weight above 100 percent in the packet data rate's average, which nothing rules out, gives rates outside those of the packets (`LocationTables.LimitRespectedExactly`).
- Requested lifetimes in [500, 1000) ms and from 1000 s on are coded as 0 (`Lifetimes.LifetimeCoded`).
- Global channel loads are not range-checked (`AdaptiveDcc.SmoothedRatioExactly`, `AdaptiveDcc.SmoothedRatioLost`).
- A self-signed certificate is returned as a ticket when a good authority follows it (`TrustChains.SequenceResultKnown`, `TrustChains.SelfSignedFirst`).
- Of three certificates the last need only be a known root, not the authority's (`TrustChains.NamedRootExactly`, `TrustChains.OtherRootNamed`).
- `gn_data_forward_gbc` sends a store-carry-forward packet at once when there is no neighbour, where its comments say it is buffered; the model follows the code (`GeoBroadcasts.StoreCarryForwardExactly`).
- `get_sequence_number` counts modulo 65535, so 65535 itself is never used; the model follows the code (`Flooding.OccurrencesExactly`).

## Model

| member | source | states |
|---|---|---|
| Flooding.ReceptionExactly | src/flexstack/geonet/router.py:1668-1746 | In every reachable network, for every reception: a packet is accepted if and only if it is foreign and was forgotten as often as accepted; then a TSB packet is delivered once, an LS Request for this station answered at its source's position, and a copy with one hop less goes on the air if and only if two hops were left, the source is within the rate, the request was not for this station, and a neighbour is there or the TSB packet is not to be kept |
| Flooding.IndicatedExactly | src/flexstack/geonet/router.py:1350-1448 | The same for one station, by its table |
| Flooding.RepeatsBounded | src/flexstack/geonet/router.py:1350-1448 | In every run of any number of stations, among any other numbered and single-hop traffic, whatever is lost, reordered or heard again: a station repeats a TSB or LS Request packet at most once more than its duplicate list has forgotten it, and the source never repeats its own |
| Flooding.RepeatedAtMostOnce | src/flexstack/geonet/router.py:1668-1746 | A station that never lost the source's entry and whose list is no shorter than the numbers the source issued (or than the whole cycle) repeats each of its packets at most once |
| Flooding.TransmissionsBounded | src/flexstack/geonet/router.py:1668-1746 | If that holds at every station but the source, and the source is within its first 65535 numbers, a packet causes at most as many transmissions as there are stations |
| Flooding.AcceptedIffForgotten | src/flexstack/geonet/location_table.py:214-249 | In every reachable state, other numbered traffic included, a station accepts a packet if and only if it is not its own and it has forgotten every earlier acceptance |
| Flooding.CopiesKeepPacket | src/flexstack/geonet/router.py:1715-1734 | Every copy on the air is a packet its source sent, changed only in the flag bits decoding drops and in the hop limit, which is the first one less the repeaters and stays positive after a repetition |
| Flooding.CopyOctets | src/flexstack/geonet/router.py:1427-1438 | On the wire, after any number of repetitions, the octets are the source's with octet 3 lowered by the number of repeaters, when its flags use bit 7 only |
| Flooding.CopyDecoded | src/flexstack/geonet/router.py:1779-1837 | The packet a station of the network handles is what decoding the copy's octets gives |
| Flooding.OccurrencesBound | src/flexstack/geonet/router.py:191-202 | Of the first k numbers a source issues any one number occurs at most ceil(k / 65535) times |
| Flooding.OccurrencesExactly | src/flexstack/geonet/router.py:191-202 | Exactly how often a number is issued among the first k; 65535 never is |
| Flooding.MultiHopTable | src/flexstack/geonet/location_table.py:403-432 | Hearing a packet adds its number to one ring; another number leaves a surviving entry only if the ring was full |
| Stations.Router.GetSequenceNumber | src/flexstack/geonet/router.py:191-202 | The counter advances modulo 65535 and the new value is returned |
| Stations.Router.GnDataIndicateTsb | src/flexstack/geonet/router.py:1668-1746 | New table, delivery and repetition of a TSB packet are those of the pure station Indicate that the network runs on, and Flooding.ReceptionExactly is about |
| Stations.HeardLearned | src/flexstack/geonet/router.py:1883-1895 | The table after a packet that was accepted: its source's entry learned position, rate and flag from the packet's vector and its payload with 12 octets, the others stay while young enough |
| Stations.Router.GnDataIndicateLsRequest | src/flexstack/geonet/router.py:1350-1448 | The same for an LS Request: answered at the sought station if the source's entry survived, repeated elsewhere |
| Stations.Router.Receive | src/flexstack/geonet/router.py:1883-1895 | Own and duplicate packets leave the table as it was |
| DuplicateDetection.RingIsLastAccepted | src/flexstack/geonet/location_table.py:241-249 | For every sequence of numbers the ring is the last min(N, accepted) accepted ones in order, without repetition |
| DuplicateDetection.AcceptedExactly | src/flexstack/geonet/location_table.py:241-249 | A number is accepted if and only if it is not among the last N accepted |
| DuplicateDetection.InOrderStreamAccepted | src/flexstack/geonet/router.py:200-202 | An in-order stream of issued numbers is accepted throughout, across wraps, if and only if N < 65535 or the first cycle is not over |
| DuplicateDetection.IssuedIsNext | src/flexstack/geonet/router.py:200-202 | The stream is what repeated calls of get_sequence_number return |
| LocationTables.LocationTableEntry.CheckDuplicateSn | src/flexstack/geonet/location_table.py:214-249 | Answers whether the ring holds the number and otherwise pushes it; set and ring stay the same numbers |
| LocationTables.LocationTableEntry.UpdatePositionVector | src/flexstack/geonet/location_table.py:68-91 | Stores the received vector if nothing (TST 0) or an older one is stored |
| LocationTables.PdrBetween | src/flexstack/geonet/location_table.py:93-114 | A packet with a later stamp multiplies the distance of the entry's rate to the packet's own by the weight of the past; the new rate lies between the two, whatever they are, if and only if that weight is at most 100 percent |
| LocationTables.LimitRespectedExactly | src/flexstack/geonet/location_table.py:93-114 | Over every sequence of packets: a source whose packets keep to a limit is never held to exceed it and no rate is negative, if and only if the weight of the past is at most 100 percent |
| LocationTables.LocationTableEntry.UpdateWithMultiHop | src/flexstack/geonet/location_table.py:146-212 | Steps of a TSB, GAC, LS or GBC packet on an entry: nothing for a duplicate, else ring, position, rate and neighbour flag |
| LocationTables.LocationTableEntry.UpdateWithShbPacket | src/flexstack/geonet/location_table.py:116-144 | Steps of a single-hop packet: position, rate, neighbour |
| LocationTables.LocationTable.EnsureEntry | src/flexstack/geonet/location_table.py:295-316 | Returns the entry of an address, a new one if there is none; all other entries stay |
| LocationTables.LocationTable.RefreshTable | src/flexstack/geonet/location_table.py:318-330 | Keeps exactly the entries whose stored stamp is young enough |
| LocationTables.LocationTable.NewMultiHopPacket | src/flexstack/geonet/location_table.py:403-476 | The table after a packet with a sequence number, object for value |
| LocationTables.LocationTable.NewShbPacket | src/flexstack/geonet/location_table.py:332-359 | The table after a single-hop packet, object for value |
| LocationTables.MultiHopLearned | src/flexstack/geonet/location_table.py:146-212 | For every table and packet with a number: refused exactly if the ring holds it, else the ring's last N numbers, the newer position, the rate drawn to the packet's own, a neighbour only if one before and not by GBC, a pending search kept; every other entry unchanged, and gone exactly when older than the lifetime in ms |
| LocationTables.SingleHopLearned | src/flexstack/geonet/location_table.py:116-144 | The same for a single-hop packet, whose source becomes a neighbour |
| Timestamps.GtTotal | src/flexstack/geonet/position_vector.py:122-200 | Of two different stamps exactly one is greater; less-than is the converse |
| Timestamps.GtExactly | src/flexstack/geonet/position_vector.py:122-144 | For any two true times: exactly when the stamp order says greater |
| Timestamps.GtIsTrueOrder | src/flexstack/geonet/position_vector.py:122-144 | It is the order of true time for times less than 2^31 ms apart |
| Timestamps.MinusIsAge | src/flexstack/geonet/position_vector.py:220-240 | The difference of two stamps is the true time between them modulo 2^32 ms |
| Timestamps.NewestWins | src/flexstack/geonet/location_table.py:81-91 | After any vectors in any order within such a window the entry holds the first-received one of greatest true time, if and only if that one is not stamped 0 or came last |
| Timestamps.NewestLost | src/flexstack/geonet/location_table.py:81-91 | Two vectors 1 ms apart of which the newer, stamped 0, is lost |
| Headers.AddressRoundTrip | src/flexstack/geonet/gn_address.py:181-225 | A GN address survives encoding |
| Headers.AddressRewrite | src/flexstack/geonet/gn_address.py:181-225 | Re-encoding a decoded address gives the same integer if and only if the ten bits decoding skips are zero |
| Headers.BasicRoundTrip | src/flexstack/geonet/basic_header.py:310-371 | A Basic Header survives encoding |
| Headers.BasicRewrite | src/flexstack/geonet/basic_header.py:293-371 | Every bit of a received Basic Header survives; changing the RHL changes octet 3 alone |
| Headers.CommonRoundTrip | src/flexstack/geonet/common_header.py:81-156 | A Common Header survives encoding if and only if only flag bit 7 is used and the reserved bits do not reach the next-header bits |
| Headers.CommonRewrite | src/flexstack/geonet/common_header.py:81-156 | Re-encoding a received Common Header gives the same octets if and only if flags are 0 or 128 and octet 0 is the next header or-ed with octet 7 |
| Headers.LpvOred | src/flexstack/geonet/position_vector.py:467-484 | Or-ing the shifted values, in two's complement, gives a negative integer, for which `to_bytes` raises, if and only if a coordinate is negative; otherwise the integer whose octets are sent |
| Headers.LpvRoundTrip | src/flexstack/geonet/position_vector.py:467-533 | A position vector can be encoded if and only if latitude and longitude are not negative, and then survives |
| Headers.LpvRewrite | src/flexstack/geonet/position_vector.py:467-533 | Re-encoding a received vector gives the same octets if and only if the address padding is zero |
| Headers.BasicPlaces | src/flexstack/geonet/basic_header.py:310-337 | The four octets of every Basic Header |
| Headers.CommonPlaces | src/flexstack/geonet/common_header.py:81-112 | The eight octets of every Common Header, with the octet of each type and subtype |
| Headers.AddressPlaces | src/flexstack/geonet/gn_address.py:181-204 | The eight octets of every address |
| Headers.LpvPlaces | src/flexstack/geonet/position_vector.py:467-484 | The place of every field of a position vector |
| Headers.CommonDecodesExactly | src/flexstack/geonet/common_header.py:114-156 | Exactly the octets that decode as a Common Header |
| Packets.ExtendedRoundTrip | src/flexstack/geonet/gbc_extended_header.py:95-175 | TSB, GBC and LS Request extended headers survive whenever they can be encoded |
| Packets.ExtendedRewrite | src/flexstack/geonet/ls_extended_header.py:56-89 | Re-encoding a received extended header gives the same octets if and only if its address paddings are zero |
| Packets.PacketPlaces | src/flexstack/geonet/router.py:1715-1734 | A TSB, GBC or LS Request packet is encoded if and only if its coordinates are not negative, and then octet by octet as clause 9 of EN 302 636-4-1 places its fields |
| Packets.DecodesExactly | src/flexstack/geonet/router.py:1779-1837 | Exactly the octets that decode as such a packet: length, next header, type, hop limit within the maximum, station types |
| Packets.ForwardingTransparent | src/flexstack/geonet/router.py:1715-1734 | For all byte strings that decode as a packet with RHL at least 1: a forwarder of TSB, GBC or LS Request changes octet 3 and nothing else if and only if no flag bit but bit 7, no misplaced reserved bit and no address padding is set |
| Packets.SourceDecoded | src/flexstack/geonet/common_header.py:57-79 | A receiver decodes a source's packet as it was sent, flag bits other than bit 7 apart |
| Packets.SourceForwarding | src/flexstack/geonet/router.py:1427-1438 | A source's packet is repeated unchanged, RHL apart, if and only if its flags use bit 7 only |
| Packets.LsRequestForwarding | src/flexstack/geonet/router.py:1229-1261 | LS Requests of this stack are repeated unchanged if and only if the station is stationary: the mobility bit is put in bit 0 and dropped by forwarders |
| Packets.GbcTransparent | src/flexstack/geonet/router.py:623-686 | GBC packets of this stack are always repeated unchanged, RHL apart |
| Bits.HeaderRoundTrip | src/flexstack/geonet/common_header.py:81-112 | For any list of fields: or-ing shifted values, writing big-endian octets and masking them out again gives the fields back |
| Bits.PackUnpack | src/flexstack/geonet/common_header.py:114-142 | For any widths: masking fields out of an integer and packing them again keeps it modulo the total width |
| Lifetimes.LifetimeCoded | src/flexstack/geonet/basic_header.py:72-136 | A requested lifetime is never coded longer; it is kept exactly for a digit times a base, becomes 0 exactly below 50 ms, in [500, 1000) ms and from 1000 s on, and otherwise keeps more than half |
| LocationServices.LocationService.GnLsRequest | src/flexstack/geonet/router.py:1263-1314 | The sections of a request, run by one thread: queue when pending, else mark, reset, send, start and register a timer, cancelling the old one |
| LocationServices.LocationService.LsRetransmit | src/flexstack/geonet/router.py:1316-1348 | The sections of a timer callback: give up at the maximum, else count, resend, restart |
| LocationServices.LocationService.IndicateLsReply | src/flexstack/geonet/router.py:1482-1497 | The reply section: everything about the address is removed, its timer cancelled, the buffer handed on in order |
| LocationServiceRuns.RequestsConserved | src/flexstack/geonet/router.py:1263-1348 | In every interleaving of threads, late timers, replies and table changes: the requests queued for an address are, in order, those handed on, given up or overwritten, followed by those buffered; what was handed to gn_data_request_guc is exactly the handed-on ones |
| LocationServiceRuns.OverwritingExactly | src/flexstack/geonet/router.py:1289-1299 | From a state in which every waiting request is searched for, nothing is overwritten, and the state persists if and only if the step does not drop an entry with waiting requests |
| LocationServiceRuns.NeverOverwritten | src/flexstack/geonet/router.py:1289-1299 | So no request is overwritten in runs that keep such entries |
| LocationServiceRuns.DroppedEntryLosesRequests | src/flexstack/geonet/location_table.py:318-330 | After such a drop the next request overwrites everything that waited |
| LocationServiceRuns.KeysKeptExactly | src/flexstack/geonet/router.py:1263-1348 | One step keeps timers, counters, buffers and pending entries on the same addresses if and only if it is orderly: no search ends under an unregistered timer, no timer outlives its search unless it gives up at once, no pending entry is dropped |
| LocationServiceRuns.AtomicIsOrderly | src/flexstack/geonet/router.py:1301-1346 | When started timers are registered at once, cancelling succeeds and pending entries are kept, each step is orderly: an uncancelled timer is the registered one of its address, so its search is on |
| LocationServiceRuns.KeySetsEqual | src/flexstack/geonet/router.py:1263-1348 | In every run with requests, expiries and replies as atomic steps and pending entries kept: timers, counters, buffers and pending entries name the same addresses, and the timers still to run are the registered ones, one for each address |
| LocationServiceRuns.OrderlyKeySets | src/flexstack/geonet/router.py:1263-1348 | The key sets are equal in all orderly runs, also where steps of several threads mix |
| LocationServiceRuns.RequestsPerCounter | src/flexstack/geonet/router.py:1289-1348 | In every run, late and early expiries included, each retransmit counter stands for at most 1 + MaxRetrans LS Requests: those sent for the address since it came into being are at most one more than it shows |
| LocationServiceRuns.RequestsSentBounded | src/flexstack/geonet/router.py:1328-1348 | So in every run the LS Requests sent for an address in all, plus what a live counter may still add, are at most 1 + MaxRetrans for each counter that came into being |
| LocationServiceRuns.RequestsPerSearch | src/flexstack/geonet/router.py:1289-1348 | In atomic runs each search sends at most 1 + MaxRetrans LS Requests, counted from where it began, and while it is on exactly one more than its counter shows |
| LocationServiceRuns.GivenUpExactly | src/flexstack/geonet/router.py:1328-1346 | In orderly runs a search is given up at an expiry if and only if it has sent all its 1 + MaxRetrans LS Requests; else the expiry sends one more |
| LocationServiceRuns.AtomicNeverOverwrites | src/flexstack/geonet/router.py:1289-1299 | And no request is overwritten in atomic runs |
| LocationServiceRuns.OrderlyRequests | src/flexstack/geonet/router.py:1289-1348 | The same for each search of all orderly runs, and so many for each search in the total for an address |
| LocationServiceRuns.StallsExactly | src/flexstack/geonet/router.py:1300-1314 | From a state in which every pending address has a running timer, a step leaves one without if and only if the thread that began the search registers its timer and cancels the only one running for the address |
| LocationServiceRuns.SearchesTickExactly | src/flexstack/geonet/router.py:1300-1314 | In every run, early and late expiries included: every pending address has a running timer all along if and only if no step is of that kind |
| LocationServiceRuns.NoSearchStalls | src/flexstack/geonet/router.py:1300-1314 | So in all runs in which no timer expires before it is registered every pending address has a running, uncancelled timer |
| LocationServiceRuns.EarlyExpiryStalls | src/flexstack/geonet/router.py:1310-1314 | A timer that expires before it is registered can leave a pending address without any timer |
| LocationServiceRuns.LateExpirySearches | src/flexstack/geonet/router.py:1318-1346 | A cancelled timer that expires after the reply sends a request and starts a timer for an address nobody seeks |
| Contention.TimeoutOrdered | src/flexstack/geonet/router.py:479-491 | The wait lies between TO_MIN and TO_MAX and never grows with the distance |
| Contention.TimeoutInRangeExactly | src/flexstack/geonet/router.py:479-491 | For a positive range the bounds hold at all distances if and only if TO_MIN <= TO_MAX |
| Contention.TimeoutExactly | src/flexstack/geonet/router.py:479-491 | The wait itself: linear in the distance, from TO_MAX at 0 to TO_MIN at the range |
| Contention.CbfForwarder.GnAreaCbfForwarding | src/flexstack/geonet/router.py:514-576 | Buffers a new packet with its wait, drops and cancels the buffered one on a duplicate |
| Contention.CbfForwarder.CbfTimeout | src/flexstack/geonet/router.py:493-512 | Sends the timer's packet if its key is buffered, and removes the key |
| Contention.BufferConserved | src/flexstack/geonet/router.py:493-576 | In every run, late expiries of cancelled timers included: per key, insertions = sends + suppressions + buffered, and only inserted packets are sent |
| Contention.BufferedHasTimer | src/flexstack/geonet/router.py:493-576 | In every run a buffered key's own timer is waiting and uncancelled, and its expiry sends the packet |
| Contention.OwnTimersKeptExactly | src/flexstack/geonet/router.py:493-512 | A step keeps each uncancelled timer at its own buffered key if and only if it is not the late expiry of a cancelled timer whose key is buffered again |
| Contention.OnTimeSendsOwn | src/flexstack/geonet/router.py:493-512 | When cancelling always succeeds each expiry sends the packet buffered under its key |
| Contention.LateExpirySendsSuppressed | src/flexstack/geonet/router.py:493-512 | A late expiry can send the suppressed packet and lose the buffered one |
| GeoBroadcasts.GeoRouter.GnDataIndicateGbc | src/flexstack/geonet/router.py:1572-1666 | Table, delivery, immediate sending and contention of a GBC packet for every geometry |
| GeoBroadcasts.GeoRouter.GnDataForwardGbc | src/flexstack/geonet/router.py:623-725 | The choice between contention, sending at once and dropping |
| GeoBroadcasts.GeoRouter.GnDataIndicateGac | src/flexstack/geonet/router.py:1107-1213 | Delivery inside the area, forwarding outside, for every geometry |
| GeoBroadcasts.GbcHopLimit | src/flexstack/geonet/router.py:1648-1655 | A repeated GBC packet has a positive hop limit one lower and is otherwise the received one |
| GeoBroadcasts.GacHopLimitExactly | src/flexstack/geonet/router.py:1190-1194 | A repeatable GAC packet is dropped exactly at hop limit 1, and the hop limit falls if and only if it was at least 1: received with 0 it leaves with 255 |
| GeoBroadcasts.StoreCarryForwardExactly | src/flexstack/geonet/router.py:623-725 | Without neighbours a store-carry-forward GBC packet is sent at once, whatever the geometry, if and only if its area is not too large, its source not too fast and its hop limit at least 2; a GAC one is dropped |
| GeoBroadcasts.GbcForwardingExactly | src/flexstack/geonet/router.py:623-725 | For every table, packet and geometry: exactly when a GBC packet contends, is sent at once, or ends, by area, rate, hop limit, neighbours, position of station and source, progress and store-carry-forward; what is sent has one hop less |
| GeoBroadcasts.GacForwardingExactly | src/flexstack/geonet/router.py:1150-1213 | The same for a GAC packet outside the area |
| GeoBroadcasts.ContendsFor | src/flexstack/geonet/router.py:545-576 | A contending packet waits TO_MAX when the sender's position is not known, TO_MIN from the range on, and otherwise TO_MAX less a share in proportion to the distance |
| GeoBroadcasts.GeoHeardLearned | src/flexstack/geonet/router.py:1572-1610 | The table after a GBC or GAC packet |
| Suppression.GeoHeardExactly | src/flexstack/geonet/router.py:1883-1895 | In every reachable state a GBC packet passes duplicate detection if and only if it is not the station's own and every earlier acceptance of it was forgotten |
| Suppression.SuppressesExactly | src/flexstack/geonet/router.py:537-543 | In every reachable state a heard copy suppresses a buffered packet if and only if the packet is buffered, not the station's own, no longer in the source's duplicate list (that is, forgotten as often as accepted), and would contend again |
| Suppression.SecondCopyIgnored | src/flexstack/geonet/router.py:1572-1666 | In any state, a packet that contends and whose source's entry survives: a copy heard next changes nothing, whatever its time and place, and the timer repeats the packet |
| Suppression.FirstPacketContends | src/flexstack/geonet/router.py:1572-1666 | Such is the first packet at a fresh station inside the area, stamped 0 at clock 0 |
| Suppression.SuppressionNeedsForgetting | src/flexstack/geonet/router.py:1572-1666 | In every run behind duplicate detection twice the suppressions of a key are at most one more than the times the duplicate list forgot it |
| Suppression.RememberedNeverSuppressed | src/flexstack/geonet/router.py:514-576 | So while the source is remembered nothing is suppressed: what entered the buffer is sent by its timer, once |
| GateKeepers.GateKeeper.AdmitPacket | src/flexstack/management/dcc_adaptive.py:288-331 | Equation B.1 and the refusals |
| GateKeepers.GateKeeper.UpdateDelta | src/flexstack/management/dcc_adaptive.py:333-379 | Equation B.2 while the gate is closed, delta alone while it is open |
| GateKeepers.AdmittedExactly | src/flexstack/management/dcc_adaptive.py:320-331 | After an admission delta times the closed interval is the air time; the interval is 0.025 s for a packet too short for that and 1 s for one too long |
| GateKeepers.RescheduledExactly | src/flexstack/management/dcc_adaptive.py:363-379 | A new delta times the new interval is the old delta times the old one, with the same limits; an open gate keeps its schedule |
| GateKeepers.PassesExactly | src/flexstack/management/dcc_adaptive.py:267-318 | In every run a packet passes if and only if it has a duration and comes no earlier than 1 ns before the scheduled opening |
| GateKeepers.OpensWhenPaid | src/flexstack/management/dcc_adaptive.py:267-379 | Over every run in order of time within the limits, through any number of reschedulings: a closed gate lets a packet through if and only if the delta now in force times the time since the last packet, plus 1 ns, has reached that packet's air time |
| GateKeepers.AdmissionHonoursExactly | src/flexstack/management/dcc_adaptive.py:320-331 | The closed interval at an admission honours the duty cycle if and only if the packet is no longer than delta |
| GateKeepers.RescheduleHonoursExactly | src/flexstack/management/dcc_adaptive.py:363-379 | A rescheduling keeps honouring it if and only if the packet is no longer than the new delta |
| GateKeepers.DutyCycle | src/flexstack/management/dcc_adaptive.py:267-379 | Over any run in order of time, through any number of reschedulings, and from any admitted packet to any later one: the air time of all packets before the later one is at most dMax times the time between plus 1 ns for each |
| GateKeepers.BoundedFits | src/flexstack/management/dcc_adaptive.py:267-379 | Deltas in [dMin, dMax] and packets no longer than dMin meet that theorem's condition |
| GateKeepers.IntervalInLimits | src/flexstack/management/dcc_adaptive.py:320-331 | In every run the scheduled interval is in [0.025, 1] s |
| GateKeepers.SpacingAndProgress | src/flexstack/management/dcc_adaptive.py:267-286 | Admissions are at least 25 ms less 1 ns apart; a second after the last one a packet always passes |
| AdaptiveDcc.DccAdaptive.Update | src/flexstack/management/dcc_adaptive.py:123-195 | The five steps, and ValueError for a local ratio outside [0, 1] |
| AdaptiveDcc.DeltaReacts | src/flexstack/management/dcc_adaptive.py:171-193 | Unless the limits of delta cut: an evaluation adds beta times the distance of the smoothed ratio to the target, cut to the limits of a step; so it raises delta exactly below the target and lowers it exactly above |
| AdaptiveDcc.LoadSettles | src/flexstack/management/dcc_adaptive.py:167-195 | Under a load that stays delta goes from any state to beta times its distance to the target over alpha, with the limits, and after 2k evaluations is within (D + beta S) / (1 + k alpha) + beta S / (1 + k / 2) |
| AdaptiveDcc.LoadApproached | src/flexstack/management/dcc_adaptive.py:167-195 | The smoothed ratio halves its distance to the load each time; the gap of delta shrinks by 1 - alpha each time, up to what is left of the ratio's |
| AdaptiveDcc.SmoothedIs | src/flexstack/management/dcc_adaptive.py:154-178 | The new ratio weighs half the old one and half the mean of a pair, global if both are given, else local |
| AdaptiveDcc.GapHalves | src/flexstack/management/dcc_adaptive.py:171-178 | Two stations on the same measurement halve the gap of their smoothed ratios |
| AdaptiveDcc.StepContracts | src/flexstack/management/dcc_adaptive.py:180-193 | One step brings the deltas within (1 - alpha) times their gap plus beta times the gap of the ratios |
| AdaptiveDcc.Fairness | src/flexstack/management/dcc_adaptive.py:167-195 | After k steps the deltas differ by at most (1 - alpha)^k D + beta S (1 - 2^-k) |
| AdaptiveDcc.FairnessRate | src/flexstack/management/dcc_adaptive.py:167-195 | From equal ratios the gap after k steps, times 1 + k alpha, is at most the initial gap |
| AdaptiveDcc.OrderPreserved | src/flexstack/management/dcc_adaptive.py:167-195 | With pointwise no larger measurements a station's delta never becomes the smaller |
| AdaptiveDcc.DeltaInLimits | src/flexstack/management/dcc_adaptive.py:189-193 | delta never falls below its minimum, and stays below its maximum if and only if the limits are in order |
| AdaptiveDcc.CbrIsRatio | src/flexstack/management/dcc_adaptive.py:171-178 | Measurements in [0, 1] keep the smoothed ratio there |
| AdaptiveDcc.SmoothedRatioExactly | src/flexstack/management/dcc_adaptive.py:154-178 | Accepted measurements keep every smoothed ratio in [0, 1] if and only if the sum of the unchecked global ones, when both are given, is in [0, 2] |
| AdaptiveDcc.SmoothedRatioLost | src/flexstack/management/dcc_adaptive.py:154-178 | Two global loads of 1.25 are accepted and lift the ratio of a full channel to 1.125 |
| ReactiveDcc.DccReactive.TargetState | src/flexstack/management/dcc_reactive.py:186-192 | The scan finds the band that holds the ratio |
| ReactiveDcc.DccReactive.Update | src/flexstack/management/dcc_reactive.py:198-240 | One step towards that band, with its rate and silence, or ValueError |
| ReactiveDcc.OneBand | src/flexstack/management/dcc_reactive.py:85-100 | Every ratio lies in exactly one band of either table |
| ReactiveDcc.SettlesExactly | src/flexstack/management/dcc_reactive.py:186-240 | A load in one band brings the state there if and only if there were as many evaluations as states between, at most four |
| ReactiveDcc.OrderPreserved | src/flexstack/management/dcc_reactive.py:186-240 | Of two stations the more loaded is never in the lower state and never has the shorter silence |
| Certificates.GetListOfPsidFromCertIssuePermissions | src/flexstack/security/certificate.py:280-305 | The loop collects exactly the explicitly grantable PSIDs |
| Certificates.GetListOfNeededPermissions | src/flexstack/security/certificate.py:329-348 | Grantable and own PSIDs without duplicates; KeyError without appPermissions |
| Certificates.CheckIssuerHasSubjectPermissions | src/flexstack/security/certificate.py:422-445 | True when the issuer holds all, else whether what is needed is contained in what it allows |
| Certificates.VerifyCertificate | src/flexstack/security/certificate.py:478-572 | The verification verdict, errors included |
| Certificates.VerifyExactly | src/flexstack/security/certificate.py:478-572 | A certificate verifies if and only if it is explicit with a P-256 key and signature and either names the digest of its issuer object, is signed by it and permitted by it, or is self-signed; exactly when the call raises |
| Certificates.GrantedExactly | src/flexstack/security/certificate.py:422-445 | Permitted means: the issuer may grant all, or each PSID the certificate has or may grant in so many words |
| CertificateLibraries.CertificateLibrary.GetIssuerCertificate | src/flexstack/security/certificate_library.py:63-96 | Lookup of the issuer, roots first |
| CertificateLibraries.CertificateLibrary.AddAuthorizationTicket | src/flexstack/security/certificate_library.py:98-113 | Stored under its digest if new, issued by a known issuer and verified; unchanged when it raises |
| CertificateLibraries.CertificateLibrary.AddAuthorizationAuthority | src/flexstack/security/certificate_library.py:115-133 | The same for authorities |
| CertificateLibraries.CertificateLibrary.AddRootCertificate | src/flexstack/security/certificate_library.py:135-146 | Stored whenever it verifies, a self-signature not being asked for |
| CertificateLibraries.CertificateLibrary.VerifySequenceOfCertificates | src/flexstack/security/certificate_library.py:174-244 | Result and library growth for sequences of every length |
| TrustChains.RunIsSound | src/flexstack/security/certificate_library.py:63-244 | In every reachable state each certificate is under its own digest and verified, each authority, ticket and own certificate below a known issuer, and the authorities are ordered below the roots |
| TrustChains.RunIsSigned | src/flexstack/security/certificate_library.py:63-244 | In every reachable library each ticket, authority and own certificate is signed and permitted by the issuer it names, and each root so or by itself |
| TrustChains.StoredExactly | src/flexstack/security/certificate_library.py:98-160 | Each way of adding stores exactly the certificates that are so signed and, but for roots, name a known issuer, replaces no ticket or authority, and changes nothing else |
| TrustChains.SingleAcceptedExactly | src/flexstack/security/certificate_library.py:197-216 | A single certificate is accepted if and only if it is known or a known issuer, a root first, signed it; then it is returned and stored |
| TrustChains.PairAcceptedExactly | src/flexstack/security/certificate_library.py:216-235 | A pair is accepted if and only if a known root signed the authority, and that or itself the ticket; what is stored of it |
| TrustChains.ChainEndsAtRoot | src/flexstack/security/certificate_library.py:63-146 | Following issuer digests from a known issuer reaches a known root within as many steps as there are authorities |
| TrustChains.PermissionsContained | src/flexstack/security/certificate.py:422-445 | In every reachable library without colliding digests: what a ticket, authority or own certificate needs is allowed by each certificate of its chain, as far up as none holds all |
| TrustChains.TicketPermissionsContained | src/flexstack/security/certificate.py:422-445 | So when no issuer of its chain holds all, what a ticket needs is allowed by every certificate up to the root |
| TrustChains.SequenceResultKnown | src/flexstack/security/certificate_library.py:174-244 | A returned ticket is the first of the sequence by digest and signed as above; it is below a known issuer if and only if it names its issuer by digest, and then it is stored |
| TrustChains.SelfSignedFirst | src/flexstack/security/certificate_library.py:208-235 | A self-signed first certificate before a good authority is returned but not stored |
| TrustChains.NamedRootExactly | src/flexstack/security/certificate_library.py:236-243 | In every reachable library that accepts a ticket and its authority: the root named third is always the authority's own if and only if no other root is known |
| TrustChains.OtherRootNamed | src/flexstack/security/certificate_library.py:236-243 | A ticket below one root, sent with the certificate of another known root, is accepted |
| GenerationDeltaTimes.ReconstructsExactly | src/flexstack/facilities/ca_basic_service/cam_transmission_management.py:204-232 | The reconstruction is the stamp of the last 65536 ms with the delta time if and only if the reception is not before the ITS epoch, is whole cycles before it, or is late enough in its cycle |
| GenerationDeltaTimes.RecentIsUnique | src/flexstack/facilities/ca_basic_service/cam_transmission_management.py:204-232 | There is at most one such stamp |
| GenerationDeltaTimes.RestoresGeneration | src/flexstack/facilities/ca_basic_service/cam_transmission_management.py:189-232 | A message received less than 65536 ms after its generation, on or after the epoch, is dated back exactly |
| CamTransmission.CamTransmissionManagement.CheckCamConditions | src/flexstack/facilities/ca_basic_service/cam_transmission_management.py:757-795 | One expiry of the check timer: nothing when inactive, else the CAM due and the new state, for a CAM recorded, sent without being recorded, or not sent |
| CamTransmission.CamTransmissionManagement.UpdateSendState | src/flexstack/facilities/ca_basic_service/cam_transmission_management.py:1022-1077 | The whole state after a CAM |
| CamTransmission.CamTransmissionManagement.Start | src/flexstack/facilities/ca_basic_service/cam_transmission_management.py:695-715 | Activation resets all that is counted per activation, once |
| CamTransmission.SentExactly | src/flexstack/facilities/ca_basic_service/cam_transmission_management.py:772-795 | In every activation a check sends a CAM if and only if it finds a position, nothing fails, and it is the first recorded, or at least 100 ms after the last recorded one heading, position or speed changed or T_GenCam is over; by the recorded CAMs alone |
| CamTransmission.MarkedExactly | src/flexstack/facilities/ca_basic_service/cam_transmission_management.py:801-834 | Of all CAMs sent exactly those are dynamic that are the first recorded or follow a change: more than 4 degrees, 4 m or 0.5 m/s against the newest recorded values, or no recorded heading |
| CamTransmission.HeadingsApartExactly | src/flexstack/facilities/ca_basic_service/cam_transmission_management.py:812-819 | Headings are more than 4 degrees apart on the circle, whatever turns are added |
| CamTransmission.RunRemembers | src/flexstack/facilities/ca_basic_service/cam_transmission_management.py:1022-1069 | In every activation T_GenCam, counter, container times and path history are what the recorded CAMs determine: the counter is the current streak of dynamic CAMs modulo 3, T_GenCam the last gap clamped or 1000; recorded CAMs are at least 100 ms apart |
| CamTransmission.RemembersExactly | src/flexstack/facilities/ca_basic_service/cam_transmission_management.py:985-1016 | The memory is that of the CAMs sent if and only if none was sent without being recorded |
| CamTransmission.GenCamInRange | src/flexstack/facilities/ca_basic_service/cam_transmission_management.py:1034-1046 | T_GenCam in [100, 1000], counter in [0, 2], T_GenCam lowered only with counter 1 or 2 |
| CamTransmission.TimedSpaced | src/flexstack/facilities/ca_basic_service/cam_transmission_management.py:744-795 | In every activation whose checks are at least 100 ms apart so are the CAMs, recorded or not |
| CamTransmission.Pacing | src/flexstack/facilities/ca_basic_service/cam_transmission_management.py:772-795 | A CAM follows a recorded one after at least 100 ms, and any one when checks are that far apart; and any CAM its predecessor within less than 1000 + p when checks are at most p apart, find a position and do not fail |
| CamTransmission.SpacingStepExactly | src/flexstack/facilities/ca_basic_service/cam_transmission_management.py:785-795 | One check more breaks the 100 ms spacing if and only if it sends less than 100 ms after a CAM that was not recorded |
| CamTransmission.SpacedExactly | src/flexstack/facilities/ca_basic_service/cam_transmission_management.py:785-795 | So over every run, with checks at any times: the spacing is kept if and only if no check does that |
| CheckTimers.OneChainRunsExactly | src/flexstack/facilities/ca_basic_service/cam_transmission_management.py:695-770 | In every run of starts, stops and timer expiries there is one chain of checks all along if and only if the service is never started again while a timer of before waits or is in its callback |
| CheckTimers.OneChainExactly | src/flexstack/facilities/ca_basic_service/cam_transmission_management.py:695-770 | The same for one step |
| CheckTimers.ChecksApart | src/flexstack/facilities/ca_basic_service/cam_transmission_management.py:744-770 | And then the checks of an activation are at least 100 ms apart |
| CheckTimers.CamsSpaced | src/flexstack/facilities/ca_basic_service/cam_transmission_management.py:744-795 | And so are its CAMs, recorded or not |
| CheckTimers.OverlapBreaksSpacing | src/flexstack/facilities/ca_basic_service/cam_transmission_management.py:717-770 | Stopped and started during its first check, the service checks at 50 and 100 ms, and a CAM that was not recorded is followed by another one 50 ms later |
| CamTransmission.RecordedSchedules | src/flexstack/facilities/ca_basic_service/cam_transmission_management.py:840-874 | In every activation each recorded CAM is due to carry LF, special and VLF containers if and only if the recorded CAMs before it make them due: 500 ms, 500 ms and a role, the second CAM or 10 s without LF and special |
| CamTransmission.SchedulesKept | src/flexstack/facilities/ca_basic_service/cam_transmission_management.py:840-874 | So is each CAM by all CAMs before it, when those with a container were recorded |
| CamTransmission.SchedulesSafeExactly | src/flexstack/facilities/ca_basic_service/cam_transmission_management.py:985-1016 | While they were: the schedules are safe whatever the next check finds, 100 ms later or more, if and only if this check does not send a container without recording it, or only a VLF container in whose place LF or special is due 100 ms later |
| CamTransmission.UnrecordedFirstCam | src/flexstack/facilities/ca_basic_service/cam_transmission_management.py:994-1016 | A first CAM that the local dynamic map does not take: 100 ms later the low-frequency container is repeated and the VLF container of the second CAM missing, while the spacing is kept |
| CamTransmission.HistoryIsLast40 | src/flexstack/facilities/ca_basic_service/cam_transmission_management.py:1055-1060 | The history is the last 40 positions recorded, oldest first |
| PathHistories.GetPathHistory | src/flexstack/facilities/ca_basic_service/cam_transmission_management.py:898-929 | The loop returns the longest newest-first prefix in range, capped at 23 |
| PathHistories.PathIsUnique | src/flexstack/facilities/ca_basic_service/cam_transmission_management.py:898-929 | No other list is that prefix |
| PathHistories.PathAccurate | src/flexstack/facilities/ca_basic_service/cam_transmission_management.py:898-929 | Each entry gives its point relative to the present position to half a ten-millionth degree, and its age to 5 ms within what the field holds |
| PathHistories.PathEndsExactly | src/flexstack/facilities/ca_basic_service/cam_transmission_management.py:898-929 | A path short of 23 that ends early ends at a point out of range |
| PathHistories.PathTimesOrdered | src/flexstack/facilities/ca_basic_service/cam_transmission_management.py:898-929 | Along the path of any activation the delta times lie in [1, 65534] and never decrease |
| LocalDynamicMap.DictionaryDatabase.Insert | src/flexstack/facilities/local_dynamic_map/dictionary_database.py:137-150 | The record under the next id, an existing key keeping its place |
| LocalDynamicMap.PutExactly | src/flexstack/facilities/local_dynamic_map/dictionary_database.py:137-150 | Assignment changes the record of a known id in place and puts a new id last |
| LocalDynamicMap.DictionaryDatabase.Remove | src/flexstack/facilities/local_dynamic_map/dictionary_database.py:182-196 | Deletes the first equal record, keeping ids unique |
| LocalDynamicMap.LdmMaintenance.CheckAndDeleteTimeValidity | src/flexstack/facilities/local_dynamic_map/ldm_maintenance.py:159-178 | The loop is the sweep, and returns the records expired when looked at, in order |
| LocalDynamicMap.SweepIsFilterExactly | src/flexstack/facilities/local_dynamic_map/ldm_maintenance.py:159-178 | With the clock read for every record, the sweep leaves exactly the unexpired records with ids and order if and only if no expired record had an equal, unexpired one before it |
| LocalDynamicMap.ClockPassesExpiry | src/flexstack/facilities/local_dynamic_map/ldm_maintenance.py:159-178 | Two equal records and two readings of the clock, one before and one after their expiry: the first is deleted in place of the second |
| LocalDynamicMap.SweepAtFixedTime | src/flexstack/facilities/local_dynamic_map/ldm_maintenance.py:159-178 | At a fixed time it always does, however many equal records there are: exactly the records stay of which no more than timeValidity seconds have passed since their stamp |
| BasicTransport.BtpRoundTrip | src/flexstack/btp/btp_header.py:102-136 | The port fields survive in front of any payload |
| BasicTransport.EndToEnd | src/flexstack/btp/router.py:62-142 | A BTP-A or BTP-B request is sent over SHB if and only if the sender's coordinates are not negative; a receiver indicates it if and only if it runs version 1 and has another MID, with the same ports, traffic class, position and payload |
| BasicTransport.ShbPlaces | src/flexstack/btp/router.py:62-118 | Octet by octet what a request puts on the link |
| BasicTransport.IndicatesExactly | src/flexstack/geonet/router.py:888-940 | Exactly the octets that give an indication |
| BasicTransport.BtpRouter.BtpDataIndication | src/flexstack/btp/router.py:120-189 | The callback of the destination port is called with the indication, none when the port is free; errors for unknown headers and unfrozen callbacks |

## Left out

- Sockets, link layers, real threads, positioning, logging, callbacks into applications: link-layer errors, which the program swallows, are not modelled, and a send always succeeds.
- Floating point: loads, times, distances and coordinates of CAMs are real numbers, so rounding errors are not modelled; the gate keeper's tolerance of 1e-9 s is.
- GNAddress equality looks at the MID only while dictionary hashing uses all fields: tables are keyed by MID, which assumes one station type per MID.
- GeoUnicast and LS Reply codecs and their forwarding, short position vectors, beacons: the same kind of proof as for the headers modelled.
- Security-enabled packet paths, certificate issuing, the PKI client, ASN.1 coders, clustering: secured packets give no indication in BasicTransport.
- GUC, GBC, GAC and LS Reply packets are not followed through the flooding network: there they draw numbers and fill duplicate lists; the repetition of GBC and GAC packets, which depends on geometry, is modelled at one station.
- Flooding.TransmissionsBounded: a run whose source issued more than 65535 numbers uses a number again, and the bound is then per packet and use of the number; Flooding.RepeatsBounded covers that case with the forgotten acceptances counted.
- Flooding.RepeatedAtMostOnce: states the sufficient condition; the exact one, per reception, is Flooding.AcceptedIffForgotten.
- LocationServices.LocationService.IndicateLsReply: records what is handed to `gn_data_request_guc`, not what that call does next; a request it queues again is a new step of a run.
- Contention.TimeoutOrdered: the distance is a parameter, not computed from coordinates.
- Headers.CommonRoundTrip: the payload length is a 16-bit field of the model; longer payloads, which run into the flags, are not modelled.
- The clock is a parameter: refresh_table reads one stamp per call.
- GateKeepers.DutyCycle: starts from a positive delta; the constructor of the program does not ask for one.
- CertificateLibraries.CertificateLibrary.AddAuthorizationTicket: the loops of the library's constructor are runs of the add operations.
- LocalDynamicMap.LdmMaintenance.CheckAndDeleteTimeValidity: a record is its validity, its time stamp and one value for all else; deletion by area, queries and subscriptions are not modelled.
- CheckTimers.CamsSpaced: the clock CAMs are stamped with is taken to run with the timers' clock; CamTransmission.SpacedExactly is for checks at any times, a clock stepped back included. A check that is under way when the service is stopped and started belongs to the activation it began in.
- LocationServiceRuns.SearchesTickExactly: sending the request and starting the timer are one step with the section before; the moment between, with a pending address and no timer yet, is no state of a run.
- CamTransmission.RecordedSchedules: the special-vehicle container that is due is attached only if the vehicle has data for it, which is not modelled.
- DENM and VAM services, CAM field filling, dictionary conversions: branch-by-branch assembly.
