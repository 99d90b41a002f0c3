# Verified models of the delta codec, the DawnHex cluster, the relay and the Simplex Adalter

This project models four pieces of the repository in Dafny and proves what they keep, undo, preserve and
converge to. Code that works in place is written in place (methods with loops over arrays, classes whose
methods change their fields) and proved against functions on plain values; the properties of every input and
every run are then lemmas about those functions.

* `codec/` is the C core `deltaffi.c` and its caller `delta_link_ffi.lua`: the run-length stream with its
  greedy packer and strict reader, the byte permutations and the xor delta, and the block hashes.
* `ladder/` holds the fixed-point arithmetic that both kernel modules share and the 22-level retention ladder
  of `dawnhex_kmod.c`. Each formula is written once and read twice, in 32-bit words and over the integers, and
  both ladders are compared with an independent one over the reals.
* `cluster/` is the rest of `dawnhex_kmod.c`: nodes with 64-bit link masks, the duo pair table with its cached
  ladders, pulses, ticks and the event ring.
* `relay/` is the relay in `infinity.c`: buffers, half-close, epoll interest, the session list, the fd map and
  the counters. The kernel is an adversary that chooses how many bytes move and which armed events fire.
* `adalter/` is `simplex_adalter_kmod.c`: the configurable ladder and the protocol between callers and the one
  recompute work item, as interleaved steps under one lock; stores, copies and recomputes take several steps
  each.

## What the code does that its comments do not say

* `M.unpack` reports a valid stream as corrupt exactly when it is non-empty and consists of zero-length runs
  (`DeltaLink.AcceptedYetCorrupt`); the bytes `FF 00 07` are an example.
* The offset basis in `deltaffi.c:30` is not the one of FNV-1a, so only the shape of that hash is claimed.
* The crosshatch and coldness boosts in `simplex_adalter_kmod.c:258-263` multiply in 32 bits. They equal their
  formula exactly for weights up to 35791 and 23860 ppm (`AdalterLadder.BoostExactIff`), and the top level is
  above both for every number of levels (`AdalterLadder.TopBoostWraps`).
* Pair ids stay increasing until the 32-bit counter wraps; the add that wraps it breaks the order unless the
  table is empty (`ClusterPairs.AddKeepsIdsIff`), and a later add may give a pair the id of another, which
  then hides it (`ClusterPairs.CollidingAddIsShadowed`). Module init and a run of adds and deletes get there
  (`ClusterPairs.CounterWraps`).
* `SET_CFG` accepts clamp bounds above 10^6, and then reductions wrap below zero
  (`AdalterLadder.HighBoundsLeak`).
* `EPOLLRDHUP` ends a source even if the kernel still holds bytes of it, and those are lost
  (`RelayDelivery.LossIsWhatWasLeft`, `RelayDelivery.HangupLosesAByte`).
* An empty relay buffer must be rewound: `buffer_space` ignores `start`, and a drained buffer that was not
  rewound would disarm its source for good (`RelayRuns.UnwoundBufferStalls`).

## Reading the sources

`dawnhex_kmod.c` and `infinity.c` contain pasted fragments. The model takes the duo state as part of the
cluster state, the pair structure that carries the ladder (lines 321-337), and the relay functions that both
versions of `infinity.c` share. Deleting a node does not delete the pairs that name it; a pulse on such a pair
is refused before anything changes.

## Model

| member | source | states |
|---|---|---|
| RunLength.RoundTrip | deltaffi.c:117-199 | unpacking a packed string gives the string back, for every string |
| RunLength.ReaderPeels | deltaffi.c:165-196 | a byte other than 0xFF reads as itself, 0xFF with a count and a byte as that many of it, and 0xFF without both is broken |
| RunLength.PackPeels | deltaffi.c:126-152 | the bytes written for the first run of any string: 0xFF 255 b per 255 of it, 0xFF m b for a rest of at least 4 or of 0xFF, a shorter rest as it is |
| RunLength.PlainPacksToItself | deltaffi.c:134-151 | a string without 0xFF and without four equal bytes in a row packs to itself |
| RunLength.PackLength | deltaffi.c:126-152 | the packed length is a sum over maximal runs of 3 per full 255 plus at most 3 for the rest (3 per started 255 for 0xFF): no token spans two runs |
| RunLength.PackIsOptimal | deltaffi.c:109-199 | no stream the strict reader accepts says the same in fewer bytes than the packer |
| RunLength.ClipIsLongest | deltaffi.c:134-151 | what a short buffer receives is whole tokens, and one token more would not fit |
| RunLengthCode.PackRle | deltaffi.c:117-155 | the returned size does not depend on the buffer; the buffer holds exactly the longest fitting prefix of whole tokens and is unchanged behind it |
| RunLengthCode.UnpackRle | deltaffi.c:160-199 | 0 for a broken stream, else the decoded length; the buffer holds the decoded bytes as far as they fit, for a broken stream those before the break |
| RunLengthCode.RoomForAll | deltaffi.c:113-121 | a buffer of the size the size pass returned receives the whole packed form |
| DeltaLink.PackString | delta_link_ffi.lua:193-199 | the size pass followed by the fill pass returns the packed form |
| DeltaLink.UnpackString | delta_link_ffi.lua:201-213 | returns the decoded string, or a corruption report when the size pass or the fill pass says 0 for a non-empty stream |
| DeltaLink.PackedStringsUnpack | delta_link_ffi.lua:193-213 | unpack after pack returns the string and never reports corruption, the empty string included |
| DeltaLink.AcceptedYetCorrupt | delta_link_ffi.lua:203-211 | an accepted stream is reported corrupt if and only if it is non-empty and made of zero-length runs |
| Links.ReverseCanonical | deltaffi.c:39-45 | the destination holds the reversed bytes; a missing buffer changes nothing |
| Links.InterReverse | deltaffi.c:47-63 | the destination holds the two-byte groups in reverse order, an odd last byte in place |
| Links.XorInto | deltaffi.c:65-79 | the output holds the zero-padded xor, an absent input counting as zeros |
| Links.InterReversedTwice | deltaffi.c:47-63 | inter-reversal undoes itself and leaves an odd last byte where it was |
| Links.ReversedJoins | deltaffi.c:39-45 | one byte is its own reverse and reversal swaps the parts of a string, which leaves one function |
| Links.InterReversedJoins | deltaffi.c:47-63 | a two-byte group stays as it is, strings of whole groups swap places, and an odd last byte stays at the end |
| Links.ReversedPermutes | deltaffi.c:39-45 | reversal permutes the bytes |
| Links.InterReversedPermutes | deltaffi.c:47-63 | inter-reversal permutes the bytes |
| Links.DeltaRecovers | deltaffi.c:65-79 | applying a delta to its base gives the other string back, zero-padded |
| Links.CanonicalDelta | delta_link_ffi.lua:218-222 | the canonical delta is all zeros |
| Links.ReverseDeltaIsPalindrome | delta_link_ffi.lua:219-223 | the reverse delta reads the same both ways |
| Links.InterDeltaIsFixed | delta_link_ffi.lua:220-224 | the inter-reversed delta is a fixed point of inter-reversal |
| BlockHashes.BlockHashesInto | deltaffi.c:81-107 | nothing without a buffer or block size, else the block hashes in order as far as the buffer goes |
| BlockHashes.Fnv1a64 | deltaffi.c:29-37 | the loop computes the hash that the sensitivity lemmas are about |
| BlockHashes.HashesAt | deltaffi.c:99-104 | hash k is that of the block at offset k times the block size, and there is a next one exactly when the next offset is inside the data |
| BlockHashes.FnvAppends | deltaffi.c:29-37 | the hash of the empty string is the basis; a byte is xored in first and the result multiplied by the prime modulo 2^64 |
| BlockHashes.XorLowIsBitwise | deltaffi.c:33 | each bit of the word xored with a byte is the sum without carry of the two bits |
| BlockHashes.StepInjective | deltaffi.c:32-35 | one hash step is a bijection of the 64-bit state for a fixed byte and tells bytes apart for a fixed state |
| BlockHashes.SingleByteSensitivity | deltaffi.c:29-37 | strings of one length that differ in exactly one byte have different hashes |
| BlockHashes.BlocksPartition | deltaffi.c:94-104 | the blocks partition the data and there are max(1, ceil(len / block size)) of them |
| BlockHashes.OneBlockHashChanges | delta_link_ffi.lua:175-186 | a single changed byte alters exactly the block hash at index pos / block size |
| DeltaLink.BlockHashList | delta_link_ffi.lua:175-186 | the capacity the caller computes is exactly the number of blocks, so no hash is dropped |
| DeltaLink.ManifestFromData | delta_link_ffi.lua:215-275 | lengths agree, canonical equals source, the canonical delta hash is that of zeros, and all block lists have the same count |
| FixedPoint.FillFib | simplex_adalter_kmod.c:143-162 | the table holds the Fibonacci numbers, the total is their sum, entries past the count are zero |
| FixedPoint.FibWeightRises | dawnhex_kmod.c:101-102 | the floored weights rise along the ladder and never exceed one |
| FixedPoint.MipsFall | dawnhex_kmod.c:217-231 | a mip profile never rises and is non-decreasing in the value it is built from |
| DuoLadder.LadderExact | dawnhex_kmod.c:44-231 | for every pair the module can hold the 32-bit ladder equals the integer ladder: no underflow, no wrap |
| DuoLadder.ScalarFacts | dawnhex_kmod.c:104-136 | the level, node and phase factors do not underflow, lie in [0, 1], and fall with weight and level |
| DuoLadder.LadderInBounds | dawnhex_kmod.c:155-198 | retained values in [10200, 120000], crosshatch and coldness in [0, 10^6], retained plus reduction one up to rounding |
| DuoLadder.LadderFalls | dawnhex_kmod.c:91-192 | retained levels and their mips never rise with the level, no mip profile rises |
| DuoLadder.LadderMonotone | dawnhex_kmod.c:48-54 | base, every level, every mip and the recursive value are non-increasing in pair energy and non-decreasing in pair pressure |
| DuoAccuracy.LadderIsNear | dawnhex_kmod.c:44-231 | the ladder in words is the same ladder over the reals within 2.6 ppm at the base, 19 ppm in every figure but reduction of a level and 20 ppm recursively, with the source's constants written out; every mip is its multiple of the level, rounded |
| DuoOrder.ColdnessMonotone | dawnhex_kmod.c:164-192 | coldness of every level and recursively never rises with pair energy and never falls with pair pressure |
| DuoOrder.CrosshatchMonotone | dawnhex_kmod.c:157-192 | crosshatch of every level and recursively never falls with either |
| DuoOrder.EnergyMonotone | dawnhex_kmod.c:169-192 | level and recursive energy follow the order of retained, along the ladder too |
| DuoOrder.ModesInOrder | dawnhex_kmod.c:56-71 | for equal energy and pressure the base of mode 2 is at least that of an unknown mode, that at least that of mode 1, that at least that of mode 3 |
| DuoLadderCode.RecomputeSimplex | dawnhex_kmod.c:73-199 | the nested accumulating loops compute the 32-bit ladder of the pair |
| LinkMask.SetBitIs | dawnhex_kmod.c:709-710 | or-ing in `1ULL << b` sets bit b and no other |
| LinkMask.ClearBitIs | dawnhex_kmod.c:713-714 | and-ing out `1ULL << b` clears bit b and no other |
| ClusterInvariant.LinkKeepsSymmetric | dawnhex_kmod.c:696-720 | linking and unlinking keep the masks symmetric, free of self bits and naming present nodes only |
| ClusterInvariant.DelKeepsSymmetric | dawnhex_kmod.c:678-694 | deleting a node keeps them so |
| ClusterInvariant.StepKeepsInv | dawnhex_kmod.c:449-745 | every operation, accepted or refused, keeps graph, ranges and cached ladders sound |
| ClusterInvariant.ReachableInv | dawnhex_kmod.c:1322-1352 | after module init and any run: symmetric masks, zeroed absent nodes, values in range, and each cached ladder equal to the ladder of its pair's current fields |
| ClusterEdges.LinkCount | dawnhex_kmod.c:641-652 | the mask weights sum to twice the number of undirected edges |
| ClusterEdges.LinkChangesOneEdge | dawnhex_kmod.c:696-720 | linking adds exactly one edge, unlinking removes exactly that one |
| ClusterEdges.DelRemovesItsEdges | dawnhex_kmod.c:678-694 | deleting a node removes exactly the edges at it |
| ClusterEdges.UnlinkUndoesLink | dawnhex_kmod.c:708-716 | unlinking restores the masks bit for bit when the nodes were not linked before |
| ClusterEdges.DelUndoesAdd | dawnhex_kmod.c:654-694 | deleting a just added node restores every slot |
| ClusterEffects.AddNodeMakes | dawnhex_kmod.c:654-676 | exactly when an add of a node is accepted, with the error codes, and every field of the new node |
| ClusterEffects.SettersSet | dawnhex_kmod.c:928-970 | each setter changes one field of one present node, cut at 10^6 |
| ClusterEffects.GenerationCounts | dawnhex_kmod.c:654-745 | over every run the generation is the number of accepted operations on nodes modulo 2^32 |
| ClusterLog.LogTellsAll | dawnhex_kmod.c:449-745 | from any sound state and over any run, reading the emitted events rebuilds every node slot, link mask and pair end |
| ClusterPairs.LookupIsMap | dawnhex_kmod.c:400-409 | with distinct ids the table lookup is the lookup in a finite map from id to pair |
| ClusterPairs.AddRefines | dawnhex_kmod.c:449-486 | an accepted add puts a freshly computed pair into the map under the next counter value, wrapped or not, and keeps the ids distinct if and only if that value is not in the table |
| ClusterEffects.AddPairMakes | dawnhex_kmod.c:411-486 | exactly when an add of a pair is accepted, with the error codes, every field of the new pair and the tuning of its mode |
| ClusterPairs.DelRefines | dawnhex_kmod.c:488-504 | with distinct ids delete, with its memmove, takes one id out of the map and nothing else, and is refused exactly for unknown ids |
| ClusterPairs.PulseRefines | dawnhex_kmod.c:506-562 | with distinct ids a pulse keeps all ids and changes the map at its own id only |
| ClusterPairs.CollidingAddIsShadowed | dawnhex_kmod.c:400-486 | a pair added under an id still in the table is out of reach: every lookup finds what it found before |
| ClusterPairs.StepKeepsDistinct | dawnhex_kmod.c:449-562 | an operation breaks the distinctness of ids if and only if it is an accepted add under an id still in the table |
| ClusterPairs.RunKeepsIds | dawnhex_kmod.c:468 | with fewer than 2^32 accepted adds, ids are strictly increasing in table order and bounded by the counter |
| ClusterPairs.AddKeepsIdsIff | dawnhex_kmod.c:465-468 | an accepted add keeps that order if and only if the counter does not wrap or the table was empty |
| ClusterPairs.CounterWraps | dawnhex_kmod.c:465-468 | some run from module init reaches ordered ids with the counter at 2^32-1 and a pair in the table; the next add breaks the order and the one after it makes two pairs share an id |
| ClusterRuns.PulseMovesEnds | dawnhex_kmod.c:523-537 | a pulse moves the two energies by the plain averaging formula: no sum wraps, no clamp cuts |
| ClusterRuns.PulseTouchesEndsOnly | dawnhex_kmod.c:514-537 | a pulse changes two energies and nothing else about nodes; a refused one changes nothing |
| ClusterRuns.PulseMovesPair | dawnhex_kmod.c:523-547 | a pulse sets the pair's energy and pressure by the plain averaging formulas, counts itself, leaves every other field as it was and the cached ladder current |
| ClusterRuns.StrongerPulseRetainsLess | dawnhex_kmod.c:506-562 | of two pulses of one state the stronger never leaves the pair with a higher base, level, mip or recursive retained value |
| ClusterRuns.PulseShrinks | dawnhex_kmod.c:525-537 | one pulse shrinks the excess over the value to at most floor(3E/4) and the deficit to at most ceil(3D/4) |
| ClusterRuns.PulseRunConverges | dawnhex_kmod.c:506-537 | under repeated pulses of one value the energies stay in the spanned interval and from the 49th on are within 3 below the value |
| ClusterRuns.TickedOnline | dawnhex_kmod.c:722-745 | k ticks raise an online node's energy by at least 1000 each up to 10^6, lower its health by 250 down to 250000, and change nothing else |
| ClusterEffects.TickGain | dawnhex_kmod.c:734-740 | one tick gives an online node 1000 and 5000 per edge that ends at it, within 10000 and 10^6, and takes 250 health while that is above 250000 |
| ClusterRuns.TicksSettle | dawnhex_kmod.c:722-745 | after 3000 ticks online nodes have energy 10^6 and health at most 250000, all other slots are as before, and further ticks change no node |
| ClusterRuns.TickRunMonotone | dawnhex_kmod.c:735-739 | along a tick run energies never fall and healths never rise |
| EventRing.Ring.Emit | dawnhex_kmod.c:603-621 | the unread events become those of a drop-oldest queue of capacity 127 |
| EventRing.Ring.Read | dawnhex_kmod.c:774-783 | the oldest unread event is taken off, or there is none |
| EventRing.PushWindow | dawnhex_kmod.c:613-618 | the head and tail arithmetic of one emit, in all its wrap-around cases, is the queue's push |
| EventRing.RunFaithful | dawnhex_kmod.c:603-783 | over any interleaving the ring holds the latest unread events in order, readers get the emitted events themselves in order, and only events with 127 newer ones are lost |
| Cluster.Module.AddNode | dawnhex_kmod.c:654-676 | the in-place operation has the specified effect on state, code and event log |
| Cluster.Module.DelNode | dawnhex_kmod.c:678-694 | as specified, with the loop over all masks |
| Cluster.Module.Link | dawnhex_kmod.c:696-720 | as specified |
| Cluster.Module.TickOnce | dawnhex_kmod.c:722-745 | as specified, events in slot order |
| Cluster.Module.SetOnline | dawnhex_kmod.c:928-936 | as specified, refused exactly for absent nodes |
| Cluster.Module.SetEnergy | dawnhex_kmod.c:952-960 | as specified, the value clamped |
| Cluster.Module.SetHealth | dawnhex_kmod.c:962-970 | as specified, the value clamped |
| Cluster.Module.AddPair | dawnhex_kmod.c:449-486 | as specified, errors in the code's order |
| Cluster.Module.DelPair | dawnhex_kmod.c:488-504 | as specified, the memmove as a loop |
| Cluster.Module.Pulse | dawnhex_kmod.c:506-562 | as specified, the ladder recomputed |
| Cluster.Module.ReadEvent | dawnhex_kmod.c:774-783 | takes the oldest event off the log and leaves the cluster state alone |
| Cluster.Module.CountLinks | dawnhex_kmod.c:641-652 | in a sound state the result is exactly the number of undirected links |
| Cluster.Module.Boot | dawnhex_kmod.c:1346-1352 | module init leaves a sound cluster |
| RelayObjects.Buffer.Compact | infinity.c:417-426 | the content moves to the front unchanged, an empty buffer is rewound |
| RelayObjects.Buffer.ReadFrom | infinity.c:750-763 | the received bytes are appended to the content, never past the capacity |
| RelayObjects.Buffer.WriteTo | infinity.c:765-779 | the accepted bytes are taken off the front, and a drained buffer is rewound |
| RelayObjects.Session.RefreshInterest | infinity.c:686-717 | the registered masks of the open sides become the interest masks of the session |
| RelayObjects.Session.ConsiderHalfClose | infinity.c:679-733 | as specified, each write half at most once |
| RelayObjects.Session.HandleSideIo | infinity.c:848-902 | the in-place handling of an event has the specified effect on session, counters and epoll registrations |
| RelayRuns.IoHandled | infinity.c:848-902 | one event appends what was received, removes what was sent, takes no flag back, and shuts a write side exactly when its source has ended and nothing is left |
| RelayProgress.EventLaw | infinity.c:735-902 | everything one event does, from the event, the kernel's answers and the state before: bytes moved, end of a pending connect, end of stream, activity time, when the session goes on, and what is counted |
| RelayProgress.ArmedIsUseful | infinity.c:686-708 | a socket is armed only to read into room there is, to finish the connect, or to send bytes there are |
| RelayProgress.EverythingArrives | infinity.c:686-902 | from any reachable state without loss, when the connect succeeds and each round of the loop moves at least a byte wherever it can, all that both peers said has been sent after a bounded number of rounds |
| RelayProgress.HelpIsPossible | infinity.c:686-902 | in every sound session such a round is possible |
| RelayRuns.StreamIntegrity | infinity.c:726-779 | over every run, received bytes equal sent bytes followed by the buffer; a shut side has been sent everything its ended source delivered |
| RelayRuns.HalfCloseIsFinal | infinity.c:679-733 | after a side's write half is shut no byte of that direction moves again |
| RelayRuns.NoStall | infinity.c:686-724 | with rewound empty buffers every direction whose source has not ended is armed at one end, and every non-empty buffer is armed for writing |
| RelayRuns.RunNeverStalls | infinity.c:686-724 | in every reachable open session the registered masks can still move it |
| RelayDelivery.NothingInvented | infinity.c:750-779 | with a kernel queue per source, over every run: what a peer said is what the other was sent, then what the relay buffers, then what the kernel still holds |
| RelayDelivery.LossIsWhatWasLeft | infinity.c:876-882 | what a side loses is exactly what the kernel holds of it when it reaches end of stream; after the half-close the other side was sent everything if and only if that is empty |
| RelayDelivery.EmptyRecvLosesNothing | infinity.c:750-763 | an end of stream seen by recv, without a reported hangup, leaves nothing behind |
| RelayDelivery.HangupLosesAByte | infinity.c:880-882 | a run in which a reported hangup does leave a byte behind for good |
| ProxyRuns.BooksBalance | infinity.c:522-584 | over every run map and list agree entry by entry, active is the list length, closed plus active is the ids handed out, and the connection cap holds |
| ProxyRuns.DestroyKeepsInv | infinity.c:553-584 | destroying removes one session, both its entries, and nothing else |
| ProxyRuns.AcceptEffect | infinity.c:793-846 | a turn of the accept loop adds one mapped session with the stated fields exactly when nothing fails in it, else list and map are as before; what it adds to each counter |
| ProxyRuns.AcceptAllKeepsInv | infinity.c:793-846 | the whole accept loop keeps the books and never lifts active above the cap |
| ProxyRuns.EventTouchesOne | infinity.c:1043-1062 | an event changes or removes the session it is for and touches no other |
| ProxyRuns.SweepKeepsBusy | infinity.c:929-943 | the idle sweep destroys exactly the sessions past the timeout, keeps the rest in order, and counts what it destroyed |
| ProxyTimes.SweepFollowsHistory | infinity.c:848-943 | after any run a sweep removes a listed session if and only if more than the timeout has passed since it was accepted or an event of it was last handled |
| ProxyRuns.CloseAllEmpties | infinity.c:904-911 | shutdown leaves no session and no side entry |
| ProxyFlows.EveryStreamIntact | infinity.c:848-1062 | over every run of the proxy, in every session it ever had, nothing was sent but what had been received in that session, in order, and of a listed session exactly the buffered bytes are missing |
| ProxyFlows.CountersAddUp | infinity.c:750-779 | over every run the two byte counters are the bytes received from all clients and from all upstreams in all sessions |
| ProxyObjects.Server.AcceptTurn | infinity.c:793-846 | the in-place turn of the accept loop has the specified effect |
| ProxyObjects.Server.Destroy | infinity.c:564-584 | as specified, with the walk along the list |
| ProxyObjects.Server.EnforceIdleTimeouts | infinity.c:929-943 | as specified |
| ProxyObjects.Server.HandleEvent | infinity.c:1043-1062 | the dispatch of one reported descriptor has the specified effect; unknown descriptors change nothing |
| ProxyObjects.Server.CloseAll | infinity.c:904-911 | as specified |
| AdalterLadder.ReportConserves | simplex_adalter_kmod.c:196-295 | for any configuration, whatever wraps on the way: retained plus reduction is 10^6 or 10^6-1 on all levels if and only if no node keeps more than 10^6, and then within 2 of 10^6 on average; clamp bounds of at most 10^6 are enough |
| AdalterLadder.LevelConservesIff | simplex_adalter_kmod.c:236-280 | a level conserves if and only if none of its nodes keeps more than 10^6 |
| AdalterLadder.HighBoundsLeak | simplex_adalter_kmod.c:236-280 | with both clamp bounds above 10^6, which SET_CFG accepts, no level conserves, for any base |
| AdalterAccuracy.ShapedNear | simplex_adalter_kmod.c:208-258 | where no 32-bit operation wraps, a node's retained value before its last clamp is the exact real product of base and factors within a stated rounding error |
| AdalterAccuracy.LevelIsNear | simplex_adalter_kmod.c:196-286 | retained, crosshatch, coldness and energy of every level are the averages of the ladder over the reals within the error of a node and one rounding, with index, Fibonacci number, weight and mips |
| AdalterAccuracy.ReportIsNear | simplex_adalter_kmod.c:164-295 | the same for the averages of the report, with its counts and key, and unused level slots zero |
| AdalterOrder.ReportOrder | simplex_adalter_kmod.c:208-295 | no level retains more than a lower one; a richer base never lowers and setting a flag never raises a level or the average |
| AdalterOrder.FullGainKeepsMinimum | simplex_adalter_kmod.c:208-258 | with one level and full level gain every node keeps exactly the minimum |
| AdalterOrder.DefaultIsTame | simplex_adalter_kmod.c:31-80 | the configuration of module init is among those, with less than 6 ppm of error per node |
| AdalterLadder.WeightsAddUp | simplex_adalter_kmod.c:143-206 | the Fibonacci total is F(n+2)-1 and the floored weights add up to more than 10^6-n and at most 10^6 |
| AdalterLadder.BoostExactIff | simplex_adalter_kmod.c:258-263 | the 32-bit boost equals its formula if and only if the weight is at most 35791 (crosshatch) or 23860 (coldness) |
| AdalterLadder.TopBoostWraps | simplex_adalter_kmod.c:205-263 | on the top level both boosts wrap, for every number of levels |
| AdalterCode.Device.Recompute | simplex_adalter_kmod.c:164-295 | the report, zeroed and filled level by level, ends as the ladder of configuration and base |
| AdalterCode.Device.Store | simplex_adalter_kmod.c:315-433 | a refused configuration changes nothing; an accepted store changes exactly its part |
| AdalterCode.AcceptedConfigs | simplex_adalter_kmod.c:396-403 | SET_CFG is accepted exactly for version 1, 1 to 22 levels and 1 to 12 nodes, which are then used as they are |
| AdalterCode.StoresChange | simplex_adalter_kmod.c:315-430 | RUN_BASE replaces the base, last_key the key alone, both cut to 127 characters, SET_CFG the configuration alone |
| AdalterProtocol.StepKeepsInv | simplex_adalter_kmod.c:164-433 | every step of callers and worker, one node or level or half a structure copy at a time, keeps lock, run counts, report, running sums, half-made copies and callers consistent |
| AdalterProtocol.CallerKeepsWork | simplex_adalter_kmod.c:297-433 | while a recompute is under way no caller changes configuration, base or report: this is what the lock is for |
| AdalterProtocol.ReturnHasBeenSeen | simplex_adalter_kmod.c:327-329 | once a caller's flush can return, its store is a version of the history, made from the version before it, and every report copied in any continuation is of that version or a later one |
| AdalterProtocol.QuietIsCurrent | simplex_adalter_kmod.c:297-304 | with nothing pending, running or between the start of a store and its queueing, the report is the ladder of the current configuration and base |
| AdalterProtocol.ReadsAreWhole | simplex_adalter_kmod.c:435-442 | every report copied, though filled slot by slot from running sums and copied in two parts, is all zero or the report of a configuration and base that really held |
| AdalterProtocol.ReadsAdvance | simplex_adalter_kmod.c:435-442 | of two reports copied in one run, the later one is never of an older version |

## Left out

- Aliasing: the source and destination buffers of the codec do not overlap, as in every call from the Lua file.
- `size_t` and 64-bit counters are unbounded; lengths stay below 2^62 and no counter runs long enough to wrap.
- `dl_pack_rle`, `dl_unpack_rle`, `dl_fnv1a64` and `dl_block_hashes` take their input as a value; only the functions that test their input pointer model it as one.
- Hex formatting, JSON and `table.concat` of hash strings in the Lua file; block hash roots are therefore not modelled, and hashes are compared as 64-bit values. A block size of 0 fails in Lua before the C call.
- Event texts: events are typed records, without the cut at 160 bytes. Node and report keys are strings without embedded NUL characters.
- The DawnHex command parser, sysfs text, poll, user copies, hook callbacks (assumed not to change the cluster), module exit, and the `interactive` and `tick_ms` switches with their delayed work.
- Cluster operations are whole steps, since each runs under one mutex.
- Sockets, name resolution, signals, logging, artifact spooling and the sidecar command of the relay; the kernel's answers are parameters. Delivered events are among those armed when the batch was collected, plus error and hangup.
- Stream claims of `RelayRuns` and `ProxyFlows` are about bytes that `recv` returned; `RelayDelivery` relates them, for one session, to what the peers said.
- ProxyObjects.Server.HandleEvent: keeps sessions as values in its list, so it uses the handling function that `RelayObjects.Session` is proved to compute, and a session pointer in the fd map is the session's id; a descriptor handed out by the system is one not in use.
- The workqueue of the kernel is modelled by its contract: at most one pending and one running instance of the work item, a flush waits for the last instance asked for.
- The read-only device commands for configuration, cluster, node and pair queries, which copy fields of the state out.
- `caustic.c`, `runway_hook.c`, the shell scripts, `dsvramd.cpp`, `dawnhex_ctl.c`, `clamp.js`, `cross_node.c`, `simplex_adapter.c`, `dawnstar_ryzen_stack.cpp` and the Python files: device wrappers and floating-point scores, outside the four pieces.
