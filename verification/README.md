# A model of the mesh telemetry site, with proofs

The repository runs a telemetry site around a radio mesh: a TCP proxy that lets many clients share one
node, a database that recognises nodes under keys of differing lengths, deduplicates alarms, thins
measurements and prunes itself, an analyser that weighs which node a one-byte address may stand for, a
country lookup, a Home Assistant bridge, a battery watch, and tools that publish firmware. This
project models the kernels in which something can go quietly wrong, and proves what they are relied on for.

Code that changes state is modelled as classes and loops (`ProxyServer.Server`, `RepeaterKeys.Repeaters`,
`Alerts.Table`, `Samples.Store`, `Retention.Packets`, `LatestTable.Table`, `HaBridge.Bridge`,
`BattWatch.Watch`, `BodyLimit.Guard`, and methods such as `Crc16.Checksum` or `Rings.PointInRing`), each tied
to a function of the state; the theorems are about those functions, over every input and every run. For the
proxy the runs are those of a state machine, `ProxyRun`, in which the tasks interleave freely;
`ProxyUndisturbed` shows that what a method of `ProxyServer.Server` does with nobody in between is such a run.

| part | files | main results |
|---|---|---|
| fan-out proxy | `Deframer`, `ProxyTraffic`, `ProxyFanout`, `ProxyRun`, `ProxyTheorems`, `ProxyServer`, `ProxyUndisturbed` | chunk invariance; no desync in either direction under every interleaving; the class refines the state machine |
| database kernels | `RepeaterKeys`, `Alerts`, `Samples`, `Battery`, `Retention`, `LatestTable` | prefix antichain; separation of alarms over whole runs; lossless thinning; exact FIFO |
| candidate weighing | `HopBound`, `Candidates`, `Exclusion` | the true node is never dropped; order of candidates irrelevant |
| firmware publishing | `Crc16`, `Uf2` | CRC trick = polynomial division, burst and parity errors; UF2 round trip |
| country lookup | `Rings`, `Countries`, `Clipping` | bounding-box path refines the plain test; clipping keeps the test |
| Home Assistant | `HaDiscovery`, `HaBridge`, `HaLosses`, `HaRepair` | cache, ledger and broker agree in every run; what a round repairs after any losses, exactly |
| smaller kernels | `BattWatch`, `Layout`, `BodyLimit`, `NodeCred` with `Utf8` and `Base64` | bounded alarms; layout merge; body limit; credential round trip |

`Seqs`, `Text`, `Bags`, `Bytes` and `Wrappers` hold what several of them share.

## Where code and documentation differ

The model follows the code. These are the places where that matters, with the lemmas that say exactly when.

* The alert window is meant to be `ALERT_DEDUP_S` seconds. The code compares an ISO stamp `...T...Z` with the
  text of `datetime()`, which has a blank where the stamp has a `T`, so the window reaches back to the start
  of the day (`Alerts.WindowByDay`, `Alerts.SuppressedAllDay`).
* A repeated alarm is looked up by its whole source, but only sixteen characters of the source are stored: a
  verbatim repetition is caught if and only if the source fits (`Alerts.VerbatimRepeatCaught`). No present caller
  reaches this: they pass "ip", "push", "accu" and "mesh".
* "The same event" is transitive among three alerts unless exactly two of them know their channel, and then it
  can fail (`Alerts.SameEventTransitiveIff`).
* With time stamps out of order a single reading can leave the newest sample behind `latest`
  (`Samples.CarriesIff`).
* After critical, a higher voltage can mean a worse level than a lower one (`BattWatch.MonotoneUnlessCritical`).
* The keepalive closes whatever connection is current by the time of its verdict: the one it pinged if and only
  if none was opened in between, otherwise a newer one (`ProxyTheorems.KeepaliveVerdict`,
  `ProxyTheorems.KeepaliveHitsPingedIff`; `ProxyTheorems.KeepaliveMayHitNewer` is such a run, for any settings).
* A config message that could not be published is remembered as published, and so is a removal
  (`HaDiscovery.UnsentStillNoted`). Lost configs come with the first round after a restart; a topic whose removal
  was lost stays, through restarts too, until somebody wants its entity again (`HaLosses.RestartRepairsIff`,
  `HaLosses.LostRemovalStays`, `HaLosses.WantedAgainRecovers`, `HaRepair.RoundAfterLosses`).
* When a new version of the software gives recorded entities another component, the ledger is what is live after
  its first round if and only if none of the wanted ones was concerned (`HaLosses.UpgradeLiveIff`). Within one
  version the component follows from the key.
* The ray of the point-in-ring test runs to the east; its documentation says to the west. The model follows
  the code.
* Clipping an outline to the region keeps the point-in-ring test on the western and southern border, not on
  the eastern and northern one (`Clipping.ClippingKeepsInside`).

## Model

| member | source | states |
|---|---|---|
| Deframer.DeframeRead | proxy/mc-proxy/mc_proxy.py:187-203 | the loop over one read takes off exactly the units of the buffer and leaves no complete one |
| Deframer.DrainConserves | proxy/mc-proxy/mc_proxy.py:189-203 | emitted bytes and the rest are the buffer; every unit is a whole frame or free of markers; the rest holds no complete unit |
| Deframer.ParseUnits | proxy/mc-proxy/mc_proxy.py:404-417 | after any whole units, reading byte by byte recovers exactly their frames and then the rest |
| Deframer.ParseAppend | proxy/mc-proxy/mc_proxy.py:187-203 | an unfinished tail read again with more behind it gives the frames of the whole |
| Deframer.FeedAllFaithful | proxy/mc-proxy/mc_proxy.py:177-203 | for every way of cutting, the frames are those of the byte-at-a-time reading and nothing is lost |
| Deframer.ChunkInvariance | proxy/mc-proxy/mc_proxy.py:177-203 | two ways of cutting a stream give the same frames in the same order; the leftovers differ in at most two leading bytes that are no markers |
| Deframer.FrameRoundTrip | proxy/mc-proxy/mc_proxy.py:70-71 | `frame` then parse is the identity below 65536 bytes, wherever the frame stands |
| ProxyTraffic.NodeRecovers | proxy/mc-proxy/mc_proxy.py:339-360 | a node that deframes the bytes written to it gets exactly the frames written, in the order they were written |
| ProxyFanout.ClientRecovers | proxy/mc-proxy/mc_proxy.py:312-337 | a client's stream starts on a unit boundary whenever it joined, and deframes to the frames it was sent |
| ProxyTheorems.EveryRun | proxy/mc-proxy/mc_proxy.py:132-438 | the invariants of traffic, fan-out, pacing, guards and slots hold after every interleaving of node, client, watchdog and keepalive steps |
| ProxyTheorems.NoDesync | proxy/mc-proxy/mc_proxy.py:339-360 | in every interleaving the node recovers exactly the complete frames, and what each client wrote arrives in its order |
| ProxyTheorems.CommandsAccounted | proxy/mc-proxy/mc_proxy.py:395-429 | no command is invented, split or reordered between a client's stream and what was taken from it |
| ProxyTheorems.ClientSees | proxy/mc-proxy/mc_proxy.py:312-337 | a client sees a gapless stretch of the broadcasts from the moment it joined, cut on unit boundaries |
| ProxyTheorems.ResponsesAccounted | proxy/mc-proxy/mc_proxy.py:177-203 | what was broadcast from a connection is what the node sent on it |
| ProxyTheorems.CommandsPaced | proxy/mc-proxy/mc_proxy.py:345-358 | any two client commands are at least the configured gap apart |
| ProxyTheorems.SlotsWithinLimit | proxy/mc-proxy/mc_proxy.py:371-392 | the slots never exceed the limit, and no client has two |
| ProxyTheorems.WatchdogSpares | proxy/mc-proxy/mc_proxy.py:226-246 | a watchdog closes only its own connection, and only if that delivered nothing |
| ProxyTheorems.HandshakesAnswered | proxy/mc-proxy/mc_proxy.py:418-428 | once SELF_INFO is cached no further client handshake reaches the node |
| ProxyTheorems.KeepaliveVerdict | proxy/mc-proxy/mc_proxy.py:295-310 | from any state: the check closes a connection exactly when nothing came since the ping, the silent rounds are used up and it is the current one |
| ProxyTheorems.KeepaliveHitsPingedIff | proxy/mc-proxy/mc_proxy.py:288-310 | over every run between a ping and its check, a close falls on the pinged connection if and only if none was opened in between, and never on an older one |
| ProxyTheorems.KeepaliveMayHitNewer | proxy/mc-proxy/mc_proxy.py:288-310 | for every setting there is a run in which the keepalive closes a connection newer than the one it pinged |
| ProxyServer.Server.Broadcast | proxy/mc-proxy/mc_proxy.py:328-337 | every client that takes a write gets the unit once; the others lose their slot |
| ProxyServer.Server.Dispatch | proxy/mc-proxy/mc_proxy.py:312-326 | a SELF_INFO is cached, and everything is broadcast |
| ProxyServer.Server.UpstreamRead | proxy/mc-proxy/mc_proxy.py:187-203 | one read of the node: all units, in order, to every client that takes writes |
| ProxyServer.Server.Exchange | proxy/mc-proxy/mc_proxy.py:339-360 | waits out the gap, then writes the unit once, or nothing without a connection |
| ProxyServer.Server.HandleUnit | proxy/mc-proxy/mc_proxy.py:418-429 | a handshake is answered from the cache, anything else goes to the node |
| ProxyServer.Server.ServeBuffer | proxy/mc-proxy/mc_proxy.py:406-429 | the inner loop of a session writes what its specification says and keeps the rest |
| ProxyServer.Server.ClientRead | proxy/mc-proxy/mc_proxy.py:395-429 | one read of a client, with its time of last activity |
| ProxyServer.ServeDrains | proxy/mc-proxy/mc_proxy.py:406-429 | on a working connection the node gets every unit but the answered handshakes, in order, and the client one answer for each of those |
| ProxyServer.FanAllSentTo | proxy/mc-proxy/mc_proxy.py:328-337 | every client of a fan-out gets every unit exactly once and in order, nobody else anything |
| ProxyServer.Server.MakeRoom | proxy/mc-proxy/mc_proxy.py:374-386 | drops the first client idle for too long, if there is one |
| ProxyServer.Server.Admit | proxy/mc-proxy/mc_proxy.py:366-392 | who is admitted, and whose slot it takes when the house is full |
| ProxyUndisturbed.ClientReadIsRun | proxy/mc-proxy/mc_proxy.py:395-429 | a client's read with nobody in between is a run of the session's own actions: the same writes on the same connections, the same buffer |
| ProxyUndisturbed.UpstreamReadIsRun | proxy/mc-proxy/mc_proxy.py:177-203 | a read of the node with nobody in between is a run that reads and broadcasts: the same writes, cached handshake, slots and leftover |
| ProxyUndisturbed.AdmitIsAccept | proxy/mc-proxy/mc_proxy.py:366-392 | the admission of the class is that of the state machine |
| RepeaterKeys.ShorteningUnique | server/app/db.py:2703-2709 | in an antichain at most one stored key of eight or more characters shortens an incoming one |
| RepeaterKeys.FoundIffSameNode | server/app/db.py:2691-2723 | a lookup finds a row exactly when some stored key names the same node |
| RepeaterKeys.AnswerUnique | server/app/db.py:2718-2723 | two rows are confused only by a key that both properly extend, to the same length |
| RepeaterKeys.GrownSound | server/app/db.py:2711-2715 | keeping the longest key seen leaves the table sound |
| RepeaterKeys.LongerFormSameRow | server/app/db.py:2691-2723 | once found under a key, a node is found again under every longer form of the key now stored |
| RepeaterKeys.FreshAntichain | server/app/db.py:2804-2808 | a key that no row answers to keeps the antichain when it is added |
| RepeaterKeys.ShortAntichain | server/app/db.py:1003-1010 | the node keys of a table whose keys are an antichain are an antichain |
| RepeaterKeys.CandidatesDiffer | server/app/db.py:2798-2803 | the slugs the search tries are all different, so it ends |
| RepeaterKeys.Repeaters.FindByPrefix | server/app/db.py:2691-2723 | finds a row the key answers to or none, and lengthens its key if it was shorter |
| RepeaterKeys.Repeaters.FreeSlug | server/app/db.py:2798-2803 | the first slug of the series that no row has |
| RepeaterKeys.Repeaters.ShortenRow | server/app/db.py:1002-1051 | one long row takes the short key, a contact's name if its own was only the key, and is hidden if a guest fetched it; or it gives way to the row that has the key and leaves it its guest mark; what is no key stays |
| RepeaterKeys.Repeaters.ShortenLongKeys | server/app/db.py:973-1051 | on any table with unique rows: no key is longer than a node key afterwards, every node and every guest mark is still there, nothing hidden is shown and no typed name lost; of a table of keys exactly the node keys remain, and a sound table stays sound |
| RepeaterKeys.Repeaters.GetOrCreate | server/app/db.py:2760-2811 | the row of the key, created hidden if there was none; refused for a malformed key or a full table; never more than 500 rows |
| Alerts.Table.Add | server/app/db.py:2535-2583 | stores the cleaned alert or recognises it, exactly as the two deduplications say |
| Alerts.WindowByDay | server/app/db.py:2552-2569 | an alert is in the window exactly when its date is not before the date of the window's start |
| Alerts.ApartMeans | server/app/db.py:2552-2569 | apart by day is outside the window, and more than the window in seconds and another date |
| Alerts.RunTextsApart | server/app/db.py:2552-2559 | over any run with sources that fit, of two rows of equal text, source and node the earlier lies on a date before the one on which the later one's 300 s window starts |
| Alerts.RunEventsApart | server/app/db.py:2564-2577 | over any run, of two rows of the same event the earlier lies on a date before the one on which the later one's 900 s window starts |
| Alerts.RunsGrow | server/app/db.py:2508-2583 | what was stored is never changed by later calls |
| Alerts.VerbatimRepeatCaught | server/app/db.py:2552-2582 | a verbatim repetition in the window is caught if and only if its source has at most sixteen characters |
| Alerts.TwiceApartIffSourceFits | server/app/db.py:2552-2582 | equal texts stay apart under storing twice if and only if the source fits |
| Alerts.SuppressedAllDay | server/app/db.py:2555-2557 | a repetition 86399 seconds later on the same day is still suppressed |
| Alerts.SameEventTransitiveIff | server/app/db.py:2570-2577 | for each pattern of known channels: the relation carries over for all triples of alerts if and only if not exactly two of the three know theirs |
| Samples.Store.Ingest | server/app/db.py:3780-3824 | every metric of a message takes its reading; every other series is untouched |
| Samples.RunCarries | server/app/db.py:3795-3824 | with stamps in order, the newest sample carries the latest numeric value |
| Samples.Lossless | server/app/db.py:3806-3824 | holding the last sample shows at every moment the same as holding the last of everything ingested |
| Samples.HeartbeatsOnly | server/app/db.py:3807-3819 | equal adjacent samples are a heartbeat apart unless forced or after a gap |
| Samples.CarriesIff | server/app/db.py:3806-3824 | stamps in any order, whatever came before: a reading keeps the newest sample in step exactly when it is not older than that or says the same |
| Battery.BatteryPercentage | server/app/metrics.py:506-534 | the walk over the table gives the cut value of the curve, or none |
| Battery.OnCurve | server/app/metrics.py:527-533 | the walk always ends on the segment the voltage lies on |
| Battery.CurveMonotone | server/app/metrics.py:477-495 | the curve rises across all its bends |
| Battery.CurveThroughPoints | server/app/metrics.py:477-495 | the curve passes through every point of its table |
| Battery.CutCurve | server/app/metrics.py:530-533 | cutting keeps the order, stays in 0..100 and never rounds up |
| Battery.PercentageMonotone | server/app/metrics.py:506-534 | none below two volts, otherwise monotone and within 0..100 |
| Retention.Packets.TrimOldest | server/app/db.py:4186-4199 | keeps exactly the newest rows asked for, and counts the others |
| Retention.Packets.Prune | server/app/db.py:4329-4355 | the three stages, with what each of them deleted; deleted and remaining add up |
| Retention.AboveIsSuffix | server/app/db.py:4186-4199 | deleting everything up to one row's id leaves exactly what stands behind that row |
| Retention.NewestAreHighest | server/app/db.py:4186-4199 | the newest rows are those with the highest ids |
| Retention.ExactFifo | server/app/db.py:4329-4355 | the survivors are the highest ids among the young, at most the row limit, and never below the floor if there were as many |
| Retention.BytesMakeProgress | server/app/db.py:4345-4355 | over the ceiling and above the floor the byte stage removes at least one row |
| Retention.PruneSettles | server/app/db.py:4294-4367 | a second pass at the same moment, with the bytes under the ceiling by then, deletes nothing |
| LatestTable.Table.Prune | server/app/db.py:4227-4291 | orphans, died-out rows and rows over the limit go, and are counted |
| LatestTable.UnderCount | server/app/db.py:4260-4265 | as many rows rank under the limit as the limit allows and there are |
| LatestTable.CapExact | server/app/db.py:4260-4265 | every repeater keeps exactly what the limit has room for |
| LatestTable.CapOldestFirst | server/app/db.py:4260-4265 | every row that stays comes before every row of its repeater that goes |
| LatestTable.NewestSurvives | server/app/db.py:4227-4266 | within the limit, and yet a newest row of every known repeater that had any |
| LatestTable.SilentUntouched | server/app/db.py:4255-4259 | a repeater with nothing fresh keeps all its rows up to the limit |
| LatestTable.PruneSettles | server/app/db.py:4227-4291 | pruning twice is pruning once |
| HopBound.WalkDistance | server/app/candidates.py:103-136 | along a walk of links, two nodes are no further apart than the links between them allow |
| HopBound.FloodLinks | server/app/candidates.py:117-133 | on a flood the bound is the real number of links from the named node to the observer |
| HopBound.FloodBound | server/app/candidates.py:140-148 | so that node is within the bound's number of ranges, in any metric |
| HopBound.DirectLinks | server/app/candidates.py:122-133 | on a direct packet the bound is one link back to the sender and the rest of the route ahead, wherever it is heard |
| HopBound.DirectBound | server/app/candidates.py:140-150 | so the destination and every hop ahead are within the bound |
| Candidates.Weigh | server/app/candidates.py:190-275 | the loop, the sort and the comparison of the top two give the specified verdict |
| Candidates.LeadIsEarned | server/app/candidates.py:259-275 | "likely" exactly when the top two differ on an evidence band; the leader is then strictly better on the named signal, equal on the earlier ones, and ahead of everybody |
| Candidates.OrderIrrelevant | server/app/candidates.py:190-275 | state, lead and both multisets do not depend on the order of the candidates |
| Candidates.Partition | server/app/candidates.py:226-257 | kept and dropped partition the candidates |
| Candidates.VerdictPartition | server/app/candidates.py:259-275 | every candidate's entry is listed once, among the matches or the dropped |
| Candidates.DroppedAreOutOfRange | server/app/candidates.py:246-253 | dropped are exactly the candidates out of range and not heard within the bound |
| Candidates.MeasuredStays | server/app/candidates.py:231-253 | whoever was heard within the bound stays, and so does the observer |
| Exclusion.FloodNeverDropsTrueNode | server/app/candidates.py:246-253 | on every flood heard anywhere, the source and every forwarder survive the weighing |
| Exclusion.DirectNeverDropsTrueNode | server/app/candidates.py:246-253 | on every source-routed packet, the destination and every hop ahead survive |
| Exclusion.NoBoundDropsNobody | server/app/candidates.py:135-139 | without a bound nobody is dropped |
| Crc16.ByteIsEightBits | meshtrack/tools/publish_firmware.py:68-73 | for every register and byte, the swaps and shifts are eight bit-serial division steps |
| Crc16.FeedConcat | meshtrack/tools/publish_firmware.py:66-74 | the checksum composes over concatenation |
| Crc16.FeedIsRemainder | meshtrack/tools/publish_firmware.py:66-74 | the checksum is the remainder of the message, with the initial register added, divided by x^16+x^12+x^5+1 |
| Crc16.RemainderUnique | meshtrack/tools/publish_firmware.py:66-74 | there is only one such quotient and remainder |
| Crc16.Checksum | meshtrack/tools/publish_firmware.py:66-74 | the loop over the bytes computes that remainder |
| Crc16.FeedLinear | meshtrack/tools/publish_firmware.py:66-74 | checksums of equally long messages differ by the checksum, from zero, of their difference |
| Crc16.BurstsDetected | meshtrack/tools/publish_firmware.py:66-74 | messages that differ only within sixteen consecutive bits have equal checksums if and only if they are equal |
| Crc16.ParityKept | meshtrack/tools/publish_firmware.py:66-74 | the parity of the checksum is that of the message and the initial register |
| Crc16.OddErrorsDetected | meshtrack/tools/publish_firmware.py:66-74 | an odd number of flipped bits always changes the checksum |
| Uf2.MakeUf2 | meshtrack/tools/publish_firmware.py:56-63 | refuses exactly the images that do not fit below 2^32, and otherwise writes whole 512-byte blocks with consecutive numbers and contiguous addresses |
| Uf2.Cut | meshtrack/tools/publish_firmware.py:57 | the pieces of 256 bytes, the last one shorter |
| Uf2.BlockRoundTrip | meshtrack/tools/publish_firmware.py:61-62 | reading a written block gives back every field and the payload |
| Uf2.FileRoundTrip | meshtrack/tools/publish_firmware.py:59-63 | reading a written file gives back its blocks |
| Uf2.ImageRoundTrip | meshtrack/tools/publish_firmware.py:56-63 | what is flashed from the file is the image padded with zeros to whole payloads |
| Rings.PointInRing | server/app/countries.py:98-110 | the toggling loop is the parity of the crossings of the closed path |
| Rings.MeetsBetween | server/app/countries.py:106-107 | an edge meets the latitude between its ends |
| Rings.StraddlesIffSidesDiffer | server/app/countries.py:98-110 | a path straddles a latitude an odd number of times exactly when its ends lie on different sides, so a closed one never does |
| Rings.RotationKeeps | server/app/countries.py:98-110 | the verdict does not depend on where the ring starts |
| Rings.ReversalKeeps | server/app/countries.py:98-110 | nor on which way round it is drawn |
| Rings.ClosingKeeps | server/app/countries.py:98-110 | nor on whether the first vertex is repeated at the end |
| Rings.ChordCuts | server/app/countries.py:98-110 | inside a ring cut along a chord is inside exactly one of the parts |
| Rings.OutsideBoxOutsideRing | server/app/countries.py:121-124 | no position outside the box of a ring is inside the ring |
| Countries.DecodeRing | server/app/countries.py:42-53 | the vertices the array stands for, or the error for a short, odd or unscaled one |
| Countries.EncodeDecode | server/tools/build_borders.py:252-269 | decoding an encoded ring gives its vertices back |
| Countries.DecodeEncode | server/tools/build_borders.py:252-269 | every well-formed array is the encoding of the ring it stands for |
| Countries.Claims | server/app/countries.py:125-131 | some polygon holds the position in its outline and in none of its holes |
| Countries.Lookup | server/app/countries.py:113-132 | the first country whose box and polygons hold the position; none without coordinates |
| Countries.FastPath | server/app/countries.py:121-124 | where boxes fit, the lookup with boxes equals the lookup without |
| Countries.BuiltBoxFits | server/tools/build_borders.py:310-317 | the box the build tool writes fits the outlines it writes |
| Countries.BuiltFileFast | server/app/countries.py:56-132 | so for every file it writes the two lookups agree everywhere |
| Clipping.ClipSide | server/tools/build_borders.py:224-234 | the loop over the edges of one side of the window |
| Clipping.CutDivides | server/tools/build_borders.py:217-222 | the cut lies on the edge and on the border |
| Clipping.ClippedInside | server/tools/build_borders.py:203-234 | cutting along one side changes the point-in-ring test at no position that side keeps |
| Clipping.ClippedInBox | server/tools/build_borders.py:191-237 | the cut outline lies in the window |
| Clipping.ClippingKeepsInside | server/tools/build_borders.py:191-237 | a position is inside the cut outline if and only if it is inside the original and in the half-open window |
| Clipping.ClipToRegion | server/tools/build_borders.py:191-237 | the four sides in turn, the early end and the closing vertex, with that property |
| HaDiscovery.PublishAgrees | server/app/hadiscovery.py:466-500 | publishing a node or a companion keeps cache, ledger and broker in agreement |
| HaDiscovery.ForgetAgrees | server/app/hadiscovery.py:522-539 | so does forgetting one |
| HaDiscovery.EveryRunAgrees | server/app/hadiscovery.py:466-758 | over any sequence of measurements, rounds and restarts whose messages arrive, the rows coming in any order each time, the ledger is exactly what is live, and what is cached is there |
| HaDiscovery.SweepSettles | server/app/hadiscovery.py:664-739 | after a round every view is cached and nothing else is recorded |
| HaDiscovery.SettledIsExact | server/app/hadiscovery.py:708-739 | then the broker retains exactly the desired configs, no ghost, none missing, none out of date |
| HaDiscovery.RoundAfterRunExact | server/app/hadiscovery.py:708-739 | so after any run a round leaves exactly what is desired |
| HaDiscovery.SecondSweepSilent | server/app/hadiscovery.py:708-739 | a second round over unchanged data sends no config message |
| HaDiscovery.UnsentStillNoted | server/app/hadiscovery.py:482-490 | a publish while the broker is away is cached all the same; agreement survives if and only if nothing had to be written |
| HaLosses.LostWhileUnwanted | server/app/hadiscovery.py:503-539 | over any run, a topic left behind stays live and unrecorded while no measurement and no round asks for its entity |
| HaLosses.WantedAgainRecovers | server/app/hadiscovery.py:482-519 | asking for the entity again records its topic, and asking for the node without it then clears it |
| HaLosses.RestartRepairsIff | server/app/hadiscovery.py:482-519 | after an unsent publish, a restart and the same publish again the memories agree if and only if no entity had been dropped |
| HaLosses.LostRemovalStays | server/app/hadiscovery.py:503-519 | a removal that was lost leaves its topic live and unrecorded over any run that does not ask for the entity |
| HaLosses.LostMessages | server/app/hadiscovery.py:482-519 | when single messages are lost, a topic is left behind exactly by its lost removal, and a config is out of date exactly by its lost config |
| HaRepair.LostStep | server/app/hadiscovery.py:482-539 | in any state: a step leaves a topic behind exactly if it loses its removal, and keeps one left behind exactly if it does not ask for it |
| HaRepair.NoGhosts | server/app/hadiscovery.py:466-661 | a history in which every removal was heard leaves nothing behind, however many configs were lost |
| HaRepair.RoundRepairs | server/app/hadiscovery.py:664-739 | from any state with proper rows, a restart and a round leave exactly the wanted configs and the topics left behind that nobody asked for |
| HaRepair.RoundAfterLosses | server/app/hadiscovery.py:466-739 | so after any history in which any messages were lost; where no removal was, exactly the wanted configs |
| HaLosses.UpgradeLiveIff | server/app/hadiscovery.py:503-519 | after the first round of a version that gives entities other components, the ledger is what is live if and only if no wanted entity is recorded under another component than it has now |
| HaBridge.ObjectIdsApart | server/app/hadiscovery.py:224-248 | two entities with one object id are one entity |
| HaBridge.ListedAvailability | server/app/hadiscovery.py:716-723 | after a round a listed node is online exactly when it has not been silent too long |
| HaBridge.OutOfScopeOffline | server/app/hadiscovery.py:724-728 | a recorded node that left the scope is offline |
| HaBridge.Bridge.PublishNode | server/app/hadiscovery.py:466-500 | the config part, if the signature changed, and the availability |
| HaBridge.Bridge.ForgetRemoved | server/app/hadiscovery.py:503-519 | clears exactly the dropped entities, counts them and rewrites the row |
| HaBridge.Bridge.ForgetNode | server/app/hadiscovery.py:522-539 | clears everything recorded, sets the node offline, empties the row and drops the signature |
| HaBridge.Bridge.PublishCompanion | server/app/hadiscovery.py:606-643 | the one config of a tracker, its row and its availability |
| HaBridge.Bridge.ForgetCompanion | server/app/hadiscovery.py:646-661 | clears the tracker and deletes its row |
| HaBridge.Bridge.SweepHalf | server/app/hadiscovery.py:664-695 | everything that should be there, then the rows of what should not |
| HaBridge.Bridge.Sweep | server/app/hadiscovery.py:708-739 | the nodes, then the companions |
| BattWatch.Thresholds | server/app/battwatch.py:86-105 | both thresholds in range, never the wrong way round, and nothing but the settings or the defaults |
| BattWatch.RepeatIsQuiet | server/app/battwatch.py:108-124 | seeing a reading again changes nothing |
| BattWatch.ChangesApart | server/app/battwatch.py:108-124 | two changes in a row are a margin apart, but for good to low and then low to critical |
| BattWatch.MonotoneUnlessCritical | server/app/battwatch.py:116-123 | exactly when a higher voltage can mean a worse level |
| BattWatch.ChangesBounded | server/app/battwatch.py:108-124 | n changes of level take n * margin <= 3/2 * variation + 2 * margin, whatever the start |
| BattWatch.RoundOfOne | server/app/battwatch.py:158-200 | in a round a node's level and alarms follow from its own usable reading alone |
| BattWatch.AlertsBounded | server/app/battwatch.py:149-204 | over any number of rounds a node's alarms obey that bound, whatever the other nodes do |
| BattWatch.AlarmKeptIff | server/app/battwatch.py:185-194 | an alarm is stored exactly when its text is not blank and no row says the same of the node since the day its window starts; other alarms never swallow it |
| BattWatch.Watch.RunOnce | server/app/battwatch.py:149-204 | the loop over the nodes: state, alarms, the number checked, what the alert table holds afterwards and the number stored |
| Layout.ParseStored | server/app/metrics.py:411-419 | the known blocks in order of first occurrence, or nothing if one element is no object |
| Layout.Fill | server/app/metrics.py:420-425 | the insertion loop |
| Layout.ParseLayout | server/app/metrics.py:400-426 | both of them, over the default layout |
| Layout.EveryBlockSeated | server/app/metrics.py:400-426 | every block exactly once; stored ones keep order and visibility; each other one is as in the default, behind only earlier blocks and directly before a later one |
| Layout.MergedIdempotent | server/app/metrics.py:400-426 | storing the result and reading it back gives the same |
| Layout.DefaultOrderIff | server/app/metrics.py:420-425 | the result is in the default order exactly when the stored blocks are |
| Layout.DefaultOrderKeys | server/app/metrics.py:420-425 | it is then the default, key by key |
| Layout.DefaultsDistinct | server/app/metrics.py:355-371 | the default list has distinct keys |
| BodyLimit.Guard.LimitedReceive | server/app/limits.py:46-56 | counts, hands on or refuses, and changes nothing else |
| BodyLimit.Guard.GuardedSend | server/app/limits.py:58-72 | passes on, swallows, or answers with the 413 instead |
| BodyLimit.Call | server/app/limits.py:24-81 | bypass, early refusal, or the guarded run, never handing on more than the limit |
| BodyLimit.GivenWithinLimit | server/app/limits.py:46-56 | for every application and message stream, no more bytes than the limit are handed on |
| BodyLimit.Transparent | server/app/limits.py:41-74 | within the limit nothing is changed |
| BodyLimit.OnlyRejected | server/app/limits.py:58-81 | over the limit before a start: exactly what was sent before the start, and the 413 if there is an answer or the exception comes through |
| BodyLimit.RejectedOrSilent | server/app/limits.py:58-81 | nothing but the 413 if and only if the application sends nothing before its start |
| BodyLimit.AnsweredEarly | server/app/limits.py:75-80 | over the limit after the start: what the application says goes through, nothing is added |
| BodyLimit.OneResponse | server/app/limits.py:58-81 | an application with at most one start never makes the client see two |
| Utf8.EncodeDecode | server/app/nodecred.py:95 | decoding gives back every text that has an encoding |
| Utf8.DecodeEncode | server/app/nodecred.py:124-127 | only the encoding of a text decodes |
| Base64.EncodeDecode | server/app/nodecred.py:99 | decoding gives back every string of bytes |
| Base64.DecodeEncode | server/app/nodecred.py:112-115 | a string that decodes is the encoding of its bytes if and only if its padding throws no set bits away |
| NodeCred.Keystream | server/app/nodecred.py:57-73 | the counter loop gives the stream of the length asked for, up to the counter's end, and stops |
| NodeCred.StreamPrefix | server/app/nodecred.py:57-73 | a shorter stream is the start of a longer one |
| NodeCred.Obfuscate | server/app/nodecred.py:88-99 | the blob of the password and the nonce, which opens to the password again; otherwise the error |
| NodeCred.Deobfuscate | server/app/nodecred.py:102-127 | the checks in their order open the blob as specified |
| NodeCred.RoundTrip | server/app/nodecred.py:88-127 | every storable password comes back under every key and nonce |
| NodeCred.OpensGenuineOnly | server/app/nodecred.py:102-127 | a blob opens to a password if and only if its bytes are what this key writes for it under some nonce |
| NodeCred.EqualPasswordsHidden | server/app/nodecred.py:91-97 | different nonces never give the same blob |
| NodeCred.OtherKeyRefused | server/app/nodecred.py:76-127 | under another key a blob is refused if and only if the tags differ or what that key unmasks is no UTF-8; with equal tags it opens to just that |

## Left out

* Sockets, the scheduler, paho, SQLite, FastAPI, templates, downloads and every JSON parser: what crosses such a boundary comes in as a value or as a step that may happen at any time.
* HMAC-SHA256 and the random nonce: any function to 32 bytes, and any 16 bytes.
* Floating point: voltages, coordinates and distances are reals, so rounding of `x / scale`, of `round(km, 1)` and NaN thresholds are not captured; `haversine_km` is an abstract metric.
* Unicode: case folding, stripping and slugs are modelled on ASCII; the slug of a name comes in as a parameter.
* The proxy's growing back-off (its loop never lets it grow), its health page, and the logging.
* Transport failures of the proxy inside one write: a write reaches a connection whole or not at all.
* Lookups with a text that is not a bounded hex key; which contact's name is taken while keys are shortened comes in as a function of the first six characters of the key.
* Neighbours inside `ingest`, and a time stamp that does not parse in the middle of a series.
* The order in which SQLite returns rows of equal rank: the model allows any.
* The size of the database on disk is a parameter of the pruning pass; VACUUM is not modelled.
- Base64.DecodeEncode: padding beyond the last group, which some Python versions accept, does not decode here.
- Countries.Lookup: a polygon without any ring, which the build tool never writes and the code would stop on, does not exist here.
- Clipping.ClippingKeepsInside: the simplification and the rounding to integers that follow move vertices and do change the test near a border.
- HaDiscovery.EveryRunAgrees: every message arrives here (histories with losses are in `HaRepair`), a restart falls between operations, and the round after a reconnect does not run beside another one.
- HaBridge.Bridge.PublishCompanion: the node name that is the value of its settings row, and the position attributes, are left out; availability is by owner.
- HaDiscovery.PublishAgrees: the state and attribute topics, which carry values and are written every time, are left out; a signature is the desired set itself.
- BattWatch.Watch.RunOnce: the wording of an alarm comes in as a function of it, and a corrupted stored level is left out.
- BodyLimit.Call: repeated `content-length` headers, of which the code takes the last, are one here.
- Uf2.MakeUf2: the choice of the address and of the family per board is not modelled.
