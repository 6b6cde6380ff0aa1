# Verification of the godiam core

godiam is a Diameter node (RFC 6733) with an edge agent for roaming partners. This project models the
parts of it that carry state or arithmetic beyond one call, and proves what they promise for every
input, every run and every interleaving.

| component | files |
|---|---|
| Ring queue behind a peer's writer | `Bits`, `RingQueue` (any number of producers and the writer, one atomic action per step), `RingBuffer` (the queue as an object) |
| Wire codec and screening | `Bytes`, `Codec` (what is on the wire and what the decoder accepts), `CodecLayout` (where every octet lies, in numbers), `CodecBuffers` (the loops over buffers) |
| Pseudonym store | `Sums`, `PseudonymStore` (operations and invariants), `StoreRefinement` (what callers see), `MemoryStore` (the store as an object) |
| Topology hiding | `Names`, `Hiding` (what happens to the AVPs), `HidingStore` (choosing an identity and the way back), `TopoHide` (the extension as an object), `StoreLimits` (the caps), `StoreIsolation` (which caps keep partners apart), `StoreAge` (how long an entry is kept) |
| Rate limiter | `TokenBucket` (one key), `Limiter` (many keys and the sweep), `LimiterShards` (the 64 shards) |
| Routing | `Selection` (choosing a candidate, breaking ties), `PartnerRoutes` (tiers and weighted election), `Relay` (matching answers, all interleavings), `RelayLoop` (the retry loop), `RealmIndex` (realm look-up) |
| Peer state machine | `PeerMachine` (handlers and timers), `PeerTable` (the table of RFC 6733), `PeerHandlers` (the peer as an object), `Collision` (two nodes connecting to each other) |

Conventions. Octet strings are `seq<byte>`; identities and realms are octet strings. What a component
asks of its surroundings is a parameter: the time, the random source, the order in which Go walks a
map, whether a send succeeds, which hosts are internal. Code that changes objects step by step is a
class or a method with loops, each proved equal to a function on values; the theorems are about those
functions and the runs they generate. Go pointers to one AVP or bucket become the value held by its list or map.

Where code and comments differ, the model follows the code: `Push` may report a full queue that is
empty; the limit set by `SetPartnerLimit` acts at the next insertion; `normalize` strips one trailing
dot only.

Results that qualify what the code's comments promise, each with its exact condition or a concrete run:

- `RingQueue.SpuriousFull` and `RingQueue.RejectsExactly`: `Push` can fail on an empty queue, at every
  capacity; it fails exactly when the ring is full or the tail has overtaken the head that was read.
- `RingQueue.NeverStrandedExactly`: the writer can sleep with a message queued and nobody about to wake
  it, exactly when the batch is smaller than the ring; the code has 32 and 8192.
- `Relay.AnsweredTwiceExactly`: a peer passes up two answers to one request exactly when one was accepted
  before the fallback queue wrote the request, which tracks it again; `Relay.TwoAnswers` is such a run.
  No transaction is consumed twice (`Relay.ConsumedOnce`).
- `Relay.WrongAnswerSpends`: an answer with the wrong end-to-end ID is dropped, and so is the right one that follows
  it, since the first has taken the pending entry.
- `Codec.RoundTrip`: a message survives encoding and decoding exactly when it is portable.
- `PseudonymStore.SurvivesExactly`: a new mapping can be evicted by its own insertion, exactly when
  more partners hold entries than the store-wide cap allows.
- `StoreIsolation.InitSeparatesExactly`: partners can take each other's pseudonyms away, exactly when the
  store-wide cap is on, several hide statefully, and of these some have a cap of zero or none, or their caps add up
  to more than it. The caps derived from a loaded configuration, where a maximum of zero has become 100000
  (`pkg/core/config/edge.go:317`), never let them (`StoreIsolation.LoadedCapsSeparate`); an explicit
  `max_entries` below the sum does.
- `StoreAge.YoungIsSpared`: the cap of a partner counts uses as well as insertions; an entry is safe for fewer of
  both than the cap.
- `StoreRefinement.ForwardKeyTells` and `StoreRefinement.BarConfuses`: the pseudonym of a host and session is its own
  exactly as long as hosts contain no bar.
- `HidingStore.RestoredExactly`: a pseudonym is restored exactly under a stable realm.
- `Hiding.NothingLeaks`: an internal identity reaches the partner exactly when its AVP had been decoded
  into children, which are what is sent, or its mask is internal; `Hiding.DisguisedHostEscapes` is an
  Origin-Host that screening decodes and masking then fails to hide.
- `Limiter.SweepInvisibleExactly`: the sweep changes decisions exactly under rules that admit calls but
  do not refill within ten minutes.
- `PartnerRoutes.EarlierTierFirst`: a later tier is preferred exactly on the strength of an earlier score.
- `PartnerRoutes.NoForeignPeer`: a foreign peer is offered exactly when the destination partner lists one.
- `PeerMachine.RequestIsDisposedOf`: a request that comes in Suspect, Closing or Zombie is neither answered nor closed.
- `PeerMachine.RejectedRequestBlocks`: a rejected request in Closed blocks every later one until a start.
- `Collision.TieBreakExactly`: crossing connections resolve exactly when the identities differ in more
  than letter case.

## Model

| member | source | states |
|---|---|---|
| RingQueue.MaskIsSlot | pkg/core/peer/writer.go:18-22 | masking an index with the capacity minus one is the remainder by the capacity, for any power of two |
| RingQueue.SlotIsPrivate | pkg/core/peer/writer.go:97-124 | within one lap of the ring no two indexes share a slot |
| RingQueue.InitEstablishes | pkg/core/peer/writer.go:38-42 | the new queue satisfies the invariant |
| RingQueue.CasHasRoom | pkg/core/peer/writer.go:45-60 | a compare-and-swap that succeeds finds the ring not full: a stale head never passes it |
| RingQueue.CasPreserves | pkg/core/peer/writer.go:55-60 | claiming an index keeps the invariant of all producers, slots and the consumer |
| RingQueue.WriteMsgPreserves | pkg/core/peer/writer.go:55-60 | writing the message into the claimed slot keeps it |
| RingQueue.SetReadyPreserves | pkg/core/peer/writer.go:57-66 | publishing keeps it |
| RingQueue.TakeMsgPreserves | pkg/core/peer/writer.go:97-124 | the consumer copying a published message keeps it |
| RingQueue.StoreTailPreserves | pkg/core/peer/writer.go:97-124 | handing the slot back keeps it |
| RingQueue.StepPreserves | pkg/core/peer/writer.go:44-124 | every atomic action of any producer, the consumer or the waiting writer keeps the invariant |
| RingQueue.ReachableIsInv | pkg/core/peer/writer.go:44-124 | the invariant holds after every interleaving |
| RingQueue.PopsFollowClaims | pkg/core/peer/writer.go:97-124 | the k-th message popped is the message of the k-th claim: nothing lost, doubled or reordered |
| RingQueue.PerProducerOrder | pkg/core/peer/writer.go:44-124 | what one producer got in comes out in the order it pushed |
| RingQueue.OwnedOrPublished | pkg/core/peer/writer.go:44-124 | every index between tail and head is owned by exactly one producer or published once; other slots are not ready |
| RingQueue.NoSlotRace | pkg/core/peer/writer.go:55-60 | two producers never write the same slot at the same time |
| RingQueue.SpinHasAPublisher | pkg/core/peer/writer.go:109-119 | while the consumer spins on a slot some producer is on its way to publish it |
| RingQueue.NoLostWakeup | pkg/core/peer/writer.go:213-237 | whenever the writer waits with messages claimed, the token is present, or a producer is before its signal, or the last batch was full and as many messages as it holds have been popped |
| RingQueue.NeverStrandedExactly | pkg/core/peer/writer.go:213-237 | in every interleaving a writer that waits with messages claimed has a token or a producer that will signal, exactly when the batch is at least the capacity |
| RingQueue.RejectsExactly | pkg/core/peer/writer.go:46-53 | a push is refused exactly when the ring is full or the tail has moved past the head it read |
| RingQueue.SpuriousFull | pkg/core/peer/writer.go:46-53 | for every capacity and batch size, a run in which a push is refused by an empty queue |
| RingQueue.StrandedMessage | pkg/core/peer/writer.go:213-237 | for every batch smaller than the capacity, a run after which the writer waits, without token or producer, although a message is published |
| RingBuffer.LockFreeQueue.Push | pkg/core/peer/writer.go:44-70 | alone, Push appends exactly when there is room and signals |
| RingBuffer.LockFreeQueue.Pop | pkg/core/peer/writer.go:72-94 | alone, Pop takes the first message or reports none |
| RingBuffer.LockFreeQueue.PopBatch | pkg/core/peer/writer.go:96-124 | alone, PopBatch moves the longest prefix that fits into the batch |
| RingBuffer.LockFreeQueue.IsEmpty | pkg/core/peer/writer.go:131-134 | true exactly when nothing is queued |
| Codec.WireLength | pkg/proto/message/encode.go:205-223 | the computed length of an AVP is the length of its image, padded to four, at any depth |
| Codec.WireAllAppend | pkg/proto/message/encode.go:98-110 | the image of a list is the concatenation of the images |
| Codec.ParseAvpCanonical | pkg/proto/message/decode.go:163-221 | an AVP the decoder accepts re-encodes to exactly the octets it consumed |
| Codec.ParseAllCanonical | pkg/proto/message/decode.go:136-161 | a list of AVPs the decoder accepts re-encodes to its input |
| Codec.DecodeIsCanonical | pkg/proto/message/decode.go:26-75 | a message the decoder accepts re-encodes to its first msgLen octets |
| Codec.RoundTrip | pkg/proto/message/decode.go:26-75 | decoding an encoded message gives it back, grouped AVPs as their octets, exactly when it is portable |
| Codec.DeepRoundTrip | pkg/proto/message/decode.go:26-75 | opening what was decoded along the message encoded gives the whole tree back at every depth, exactly when no AVP in it has a Vendor-ID without its flag |
| Codec.CoherentIsAsSent | pkg/proto/message/decode.go:228-240 | for AVPs as decoding and screening leave them that tree is the very tree |
| Codec.AcceptsExactlyEncodings | pkg/proto/message/decode.go:26-75 | the decoder accepts exactly the octet strings that start with the encoding of an encodable version 1 message |
| Codec.StreamRoundTrip | pkg/proto/message/decode.go:77-134 | reading a concatenation of encodings gives the messages in order and leaves the rest |
| CodecLayout.AvpOctets | pkg/proto/message/encode.go:147-192 | an AVP on the wire: code, flags, 24-bit length, with flags of 128 or more four octets of Vendor-ID, then data or children from octet 8 or 12, then zeros up to a multiple of four |
| CodecLayout.ListOctets | pkg/proto/message/encode.go:103-112 | the AVPs of a message and the children of a group lie one after the other |
| CodecLayout.MessageOctets | pkg/proto/message/encode.go:78-101 | a message on the wire: 20 octets of header with version, length, flags, command and the three identifiers at their places, then the AVPs |
| CodecLayout.FitsExactly | pkg/proto/message/encode.go:67-73 | a message can be encoded exactly when it takes at most 16777215 octets |
| CodecLayout.AvpRead | pkg/proto/message/decode.go:163-221 | an AVP is accepted exactly when header, data and zero padding are all there, and is read from octets 8 or 12 on, according to the flags being below 128 |
| CodecLayout.AvpComplaint | pkg/proto/message/decode.go:163-218 | which of the six complaints a rejected AVP gets |
| CodecLayout.MessageRead | pkg/proto/message/decode.go:26-75 | which octets of a message its fields are read from and which complaint comes first |
| Codec.DecodeGroupedKeepsWire | pkg/proto/message/decode.go:228-240 | decoding an AVP in place, successfully or not, keeps its image |
| Codec.ScreenKeepsWire | pkg/extensions/dea_screening/dea_screening.go:446-476 | looking for denied AVPs at any depth, decoding speculatively, never changes what is sent |
| Codec.ScreenIsSound | pkg/extensions/dea_screening/dea_screening.go:446-476 | an AVP reported denied sits at some path of the message |
| Codec.ScreenIsComplete | pkg/extensions/dea_screening/dea_screening.go:446-476 | a denied AVP at any path is found |
| Codec.ScreenExactly | pkg/extensions/dea_screening/dea_screening.go:446-476 | screening reports exactly the messages with a denied AVP at some depth |
| CodecLayout.ScreenReadsOctets | pkg/extensions/dea_screening/dea_screening.go:446-476 | a received list is rejected exactly when reading its octets as AVPs, the data of one of these again, and so on to any depth, gives a denied code and Vendor-ID |
| Codec.OpenedCoherent | pkg/proto/message/decode.go:228-240 | decoding an AVP in place keeps that children, at every depth, are what the data decode to |
| Codec.ScreenCoherent | pkg/extensions/dea_screening/dea_screening.go:446-476 | so does the walk for denied AVPs, which also keeps what each AVP carries |
| CodecBuffers.EncodeTo | pkg/proto/message/encode.go:118-192 | writes exactly the image of the AVP at the offset and nothing else, or reports that it does not fit |
| CodecBuffers.EncodeChildren | pkg/proto/message/encode.go:122-144 | the temporary buffer holds the images of the children |
| CodecBuffers.Encode | pkg/proto/message/encode.go:67-115 | returns the image of the message, or an error exactly when it is longer than 24 bits can say |
| CodecBuffers.DecodeAvp | pkg/proto/message/decode.go:163-221 | the field-by-field decoder is the parser of the specification, errors included |
| CodecBuffers.DecodeAvps | pkg/proto/message/decode.go:136-161 | so is the loop over AVPs |
| CodecBuffers.DecodeMessage | pkg/proto/message/decode.go:26-75 | so is the message decoder |
| CodecBuffers.ReadMessage | pkg/proto/message/decode.go:77-134 | reads exactly one message from the stream whatever the pooled buffer held before |
| CodecBuffers.FindDenied | pkg/extensions/dea_screening/dea_screening.go:446-460 | the recursive walk finds what the specification finds and leaves the list it leaves |
| PseudonymStore.TotalIsSum | pkg/extensions/dea_topohide/store.go:161-169 | the counter is the number of mappings and the sum of the list lengths |
| PseudonymStore.PutValid | pkg/extensions/dea_topohide/store.go:175-197 | storing keeps maps, lists and counter consistent and the store-wide cap respected, whatever the map order |
| PseudonymStore.SetPartnerLimitValid | pkg/extensions/dea_topohide/store.go:134-139 | setting a cap keeps the invariant |
| PseudonymStore.LookupsValid | pkg/extensions/dea_topohide/store.go:199-241 | both look-ups, with their lazy expiry and touching, keep the invariant |
| PseudonymStore.EvictGlobalValid | pkg/extensions/dea_topohide/store.go:277-293 | the store-wide eviction ends within the cap and keeps the invariant |
| PseudonymStore.LegalExists | pkg/extensions/dea_topohide/store.go:277-293 | the store-wide eviction always finds a largest list to take from |
| PseudonymStore.Pigeonhole | pkg/extensions/dea_topohide/store.go:277-293 | a store over a cap of at least as many entries as partners holding some has a list of two |
| PseudonymStore.SurvivesExactly | pkg/extensions/dea_topohide/store.go:161-169 | a mapping just put survives its own eviction pass in every map order exactly when the cap is off or covers the partners holding entries |
| PseudonymStore.FreshSurvivesExactly | pkg/extensions/dea_topohide/store.go:161-169 | for a fresh key, read off the store before the call: the cap is off or covers the holders and the inserting partner |
| PseudonymStore.PutIsolated | pkg/extensions/dea_topohide/store.go:161-169 | in an isolated store a fresh pseudonym evicts at most the least recently used mapping of its own full partner; isolation is kept (StoreIsolation.InitIsolates says where it holds) |
| PseudonymStore.OthersUntouched | pkg/extensions/dea_topohide/store.go:161-169 | and removes no other partner's mapping |
| StoreRefinement.RealHostIsLookup | pkg/extensions/dea_topohide/store.go:220-241 | RealHost answers what is live under the normalised key and changes no later answer |
| StoreRefinement.PseudonymIsLookup | pkg/extensions/dea_topohide/store.go:199-218 | Pseudonym answers what is live under the normal host, a bar and the session, and changes no later answer |
| StoreRefinement.SweepIsInvisible | pkg/extensions/dea_topohide/store.go:117-132 | the sweep changes no answer from then on |
| StoreRefinement.PutRefines | pkg/extensions/dea_topohide/store.go:175-197 | storing is insertion into plain maps, from pseudonym to host and deadline and from normal host and session to pseudonym, less the evicted keys |
| StoreRefinement.StepValid | pkg/extensions/dea_topohide/store.go:117-241 | every operation, at any time and in any map order, keeps the store valid |
| StoreRefinement.StoreIsAMapWithExpiry | pkg/extensions/dea_topohide/store.go:117-241 | over every run of calls on hosts without a bar the store gives exactly the answers of those plain maps |
| StoreRefinement.CountersAddUp | pkg/extensions/dea_topohide/store.go:117-332 | over every run each key that came in is held, was evicted or has expired, and each host asked for was a hit or a miss: the counters say which |
| StoreRefinement.ForwardKeyTells | pkg/extensions/dea_topohide/store.go:171-173 | for hosts without a bar two forward keys are equal exactly when the normal hosts and the sessions are |
| StoreRefinement.BarConfuses | pkg/extensions/dea_topohide/store.go:171-173 | a host with a bar shares its forward key with another host in another session |
| StoreRefinement.PseudonymWasPut | pkg/extensions/dea_topohide/store.go:175-218 | after any run from an empty store the pseudonym of a host in a session was put for a host of that normal form in exactly that session, and its time has not come |
| StoreRefinement.RealHostWasPut | pkg/extensions/dea_topohide/store.go:175-241 | and the host behind a pseudonym is one the pseudonym was put for, likewise |
| MemoryStore.Memory.PutPseudonym | pkg/extensions/dea_topohide/store.go:175-197 | the in-place insertion with both eviction passes reaches the specified state |
| MemoryStore.Memory.InsertLocked | pkg/extensions/dea_topohide/store.go:161-169 | listing the entry and enforcing both caps completes the specified insertion |
| MemoryStore.Memory.Pseudonym | pkg/extensions/dea_topohide/store.go:199-218 | the in-place look-up answers and leaves what is specified |
| MemoryStore.Memory.RealHost | pkg/extensions/dea_topohide/store.go:220-241 | so does the reverse look-up, counters included |
| MemoryStore.Memory.SetPartnerLimit | pkg/extensions/dea_topohide/store.go:134-139 | sets the cap of one list and nothing else |
| MemoryStore.Memory.RemoveLocked | pkg/extensions/dea_topohide/store.go:312-332 | takes an entry out of list, counter, forward index and map |
| MemoryStore.Memory.TouchLocked | pkg/extensions/dea_topohide/store.go:151-159 | moves an entry to the recent end of its list |
| MemoryStore.Memory.EvictOldestLocked | pkg/extensions/dea_topohide/store.go:295-310 | removes the least recently used entry if there is one |
| MemoryStore.Memory.EvictPartnerLocked | pkg/extensions/dea_topohide/store.go:262-275 | evicts until the partner is within its cap |
| MemoryStore.Memory.EvictGlobalLocked | pkg/extensions/dea_topohide/store.go:277-293 | evicts from a largest list until the store is within its cap |
| MemoryStore.Memory.Sweep | pkg/extensions/dea_topohide/store.go:117-132 | the walk over all lists removes exactly the expired entries and keeps the order of the others |
| Hiding.NothingLeaks | pkg/extensions/dea_topohide/dea_topohide.go:273-336 | what the partner decodes shows nothing the policy hides - internal Origin-Host, reporting host, record or proxy, address, state identifier - exactly when no kept AVP with an identity to replace had been decoded into children and no mask issued for a kept one is internal |
| Hiding.DecodedMessageTells | pkg/extensions/dea_topohide/dea_topohide.go:273-336 | in codes and identities: a message as decoded leaves with no internal Origin-Host, reporting host, record or proxy, no address and no state identifier in it, as far as the policy says, exactly when no mask put for a kept internal Origin-Host is itself internal |
| TopoHide.StatelessTellsNothing | pkg/extensions/dea_topohide/dea_topohide.go:350-354 | so in stateless mode always, since every mask is then the edge's own identity |
| Hiding.RealmFollows | pkg/extensions/dea_topohide/dea_topohide.go:317-326 | with a masked Origin-Host the first Origin-Realm the partner decodes is the outward realm, exactly when the one kept had not been decoded into children or said so already |
| Hiding.OutwardRealmIs | pkg/extensions/dea_topohide/dea_topohide.go:338-348 | the outward realm is the pseudonym realm if one is configured, else what follows the first dot of the edge's identity, else none |
| Hiding.ScrubbedAreGone | pkg/extensions/dea_topohide/dea_topohide.go:306-334 | no AVP named by a selector leaves, but for the edge's own record added afterwards |
| Hiding.PlainsUntouched | pkg/extensions/dea_topohide/dea_topohide.go:273-336 | AVPs the policy does not concern keep order and content |
| Hiding.EdgeIsRecorded | pkg/extensions/dea_topohide/dea_topohide.go:327-335 | a request with hidden records leaves with the edge in its Route-Record chain; a record added comes last, mandatory and without vendor |
| Hiding.RewrittenLeaks | pkg/extensions/dea_topohide/dea_topohide.go:280-305 | a kept AVP as the partner decodes it still leaks exactly when it is an identity to replace that holds children, or its mask is internal |
| Hiding.DisguisedHostEscapes | pkg/extensions/dea_topohide/dea_topohide.go:273-336 | a concrete internal Origin-Host that reads as AVPs: in a request screened for denied AVPs it is decoded, masking rewrites its data, and the partner still reads it |
| Hiding.RewriteIsSent | pkg/proto/message/encode.go:118-192 | rewriting the data of an AVP changes its image exactly when the AVP holds no decoded children |
| HidingStore.KeyIsNormalExactly | pkg/extensions/dea_topohide/dea_topohide.go:370-383 | the key of a new pseudonym is in normal form exactly under a stable realm |
| HidingStore.IssuedName | pkg/extensions/dea_topohide/dea_topohide.go:369-383 | a new pseudonym is prefix and label inside the pseudonym realm, and two labels of one length give one key only if they are equal |
| HidingStore.RunKeepsGenuine | pkg/extensions/dea_topohide/store.go:117-241 | over every run of insertions masking makes, each entry keeps an alias made for its host and a key in normal form |
| HidingStore.MaskStepKeeps | pkg/extensions/dea_topohide/dea_topohide.go:350-367 | and one call of mask keeps that too |
| HidingStore.IssuedEntry | pkg/extensions/dea_topohide/dea_topohide.go:350-367 | what is stored under an issued identity is the masked host up to normalisation; a new one expires after the configured time if that is positive and after thirty minutes otherwise |
| HidingStore.MaskedIsRestored | pkg/extensions/dea_topohide/dea_topohide.go:350-402 | from an empty store, through any run, one mask and any run that spares its entry, a Destination-Host equal to the issued identity in any letter case is restored to the masked host before the deadline |
| HidingStore.StoredIsRestored | pkg/extensions/dea_topohide/dea_topohide.go:385-402 | a live entry under a key in normal form is found by every spelling that normalises to the key |
| HidingStore.RunKeepsEntry | pkg/extensions/dea_topohide/store.go:117-241 | an entry outlives every run that ends before its deadline and in which no insertion evicts or rebinds it |
| HidingStore.HiddenThenRestored | pkg/extensions/dea_topohide/dea_topohide.go:350-402 | issued under a stable realm into a store whose cap covers its partners, a pseudonym in any letter case is restored to the very host after every such run |
| HidingStore.RestoredExactly | pkg/extensions/dea_topohide/dea_topohide.go:369-402 | a live fresh pseudonym is restored exactly when the realm is stable under the second normalisation |
| HidingStore.UnstableRealm | pkg/extensions/dea_topohide/dea_topohide.go:504-506 | there is a realm for which it is not |
| Names.NormalizeIs | pkg/extensions/dea_topohide/dea_topohide.go:504-506 | the normal form is what lies between the white space at both ends, less one final dot, in lower case |
| Names.LowerExactly | pkg/extensions/dea_topohide/dea_topohide.go:504-506 | lower-casing maps the octets 65 to 90 to 97 to 122 and no other, so it identifies exactly the texts that differ in letter case |
| TopoHide.Extension.Mask | pkg/extensions/dea_topohide/dea_topohide.go:350-367 | one call of mask is one step of the specification on the store |
| TopoHide.Extension.Consider | pkg/extensions/dea_topohide/dea_topohide.go:282-305 | the switch on the code rewrites or condemns the AVP as specified |
| TopoHide.Extension.HideOne | pkg/extensions/dea_topohide/dea_topohide.go:279-316 | one round of the loop rewrites in place or removes |
| TopoHide.Extension.HideAvps | pkg/extensions/dea_topohide/dea_topohide.go:279-316 | the loop that removes while it walks equals filter and map, threading the store through the masked positions |
| TopoHide.Extension.Hide | pkg/extensions/dea_topohide/dea_topohide.go:271-336 | the whole of hide; if it reports no change the message's image is unchanged |
| TopoHide.Extension.RestoreDestinationHost | pkg/extensions/dea_topohide/dea_topohide.go:385-402 | rewrites the first Destination-Host with the host looked up, or nothing |
| TopoHide.HiddenHostIsAddressed | pkg/extensions/dea_topohide/dea_topohide.go:273-402 | from message to message: what the partner decodes for a hidden Origin-Host, sent back as Destination-Host in any letter case, is restored to that host after every run that spares the entry |
| TopoHide.LastMaskStays | pkg/extensions/dea_topohide/dea_topohide.go:279-316 | the rest of a message without another internal Origin-Host leaves the entry as it is |
| TopoHide.SessionIs | pkg/extensions/dea_topohide/dea_topohide.go:275 | the session scope is the data of the first Session-Id, or empty |
| TopoHide.HasRouteRecord | pkg/extensions/dea_topohide/dea_topohide.go:485-493 | true exactly when some Route-Record equals the identity up to normalisation |
| StoreLimits.MaxPartnerEntries | pkg/extensions/dea_topohide/dea_topohide.go:154-171 | the derived cap is the sum over the partners that hide, statically or statefully, or none if one of them is unlimited |
| StoreLimits.Init | pkg/extensions/dea_topohide/dea_topohide.go:82-121 | after set-up every partner has its cap and the store the derived one |
| StoreIsolation.EvictPartnerOwn | pkg/extensions/dea_topohide/store.go:262-275 | a partner's own cap takes only that partner's mappings |
| StoreIsolation.PutKeepsIsolated | pkg/extensions/dea_topohide/store.go:161-197 | in an isolated store an insertion, of a new key or one bound before, needs no store-wide eviction and keeps isolation |
| StoreIsolation.StepKeepsIsolated | pkg/extensions/dea_topohide/store.go:117-241 | so does every other operation but setting a cap |
| StoreIsolation.SetLimitKeepsIsolated | pkg/extensions/dea_topohide/store.go:134-139 | setting a cap keeps isolation exactly when the partner stores nothing or the cap is positive, covers its list and fits the store |
| StoreIsolation.InitIsolates | pkg/extensions/dea_topohide/dea_topohide.go:82-121 | on every run after set-up, with positive maxima of the stateful partners that fit the store-wide cap, each stays within its own |
| StoreIsolation.SeparateExactly | pkg/extensions/dea_topohide/dea_topohide.go:350-367 | over all runs of entries masking makes, by any policies, and all map orders no partner's insertion removes another's mapping, exactly when the store-wide cap is off, one partner stores, or all caps are positive and together fit it |
| StoreIsolation.InitSeparatesExactly | pkg/extensions/dea_topohide/dea_topohide.go:82-121 | the same for the store set up from the partners' modes and maxima, where the stateful ones store, with or without an explicit max_entries |
| StoreIsolation.DerivedCapsSeparateExactly | pkg/extensions/dea_topohide/dea_topohide.go:154-171 | with the derived cap, summed over static and stateful partners: exactly when one of these is unlimited, their maxima are all zero, at most one is stateful, or every stateful maximum is positive |
| StoreIsolation.LoadedCapsSeparate | pkg/core/config/edge.go:317-322 | so always for a configuration as loaded, where no maximum is zero |
| StoreAge.StepAgeing | pkg/extensions/dea_topohide/store.go:117-241 | one operation on an isolated store leaves a live entry where it is or pushes it back by one: only an insertion or use of its own partner's other entries does |
| StoreAge.YoungIsSpared | pkg/extensions/dea_topohide/store.go:117-241 | an entry is spared by every run with fewer insertions and uses of its partner's other entries than its partner's cap leaves it, whatever other partners do |
| StoreAge.NewestIsSpared | pkg/extensions/dea_topohide/store.go:117-241 | in terms of the calls alone: fewer insertions by the partner and look-ups than its cap since the entry was last used |
| StoreAge.FreshIsRestored | pkg/extensions/dea_topohide/dea_topohide.go:350-402 | so a fresh pseudonym in an isolated store is restored to the very host after every such run |
| TokenBucket.AvailableIsLeastRoom | pkg/extensions/dea_ratelimit/limiter.go:116-158 | the tokens a call finds are the least room over all windows ending with it |
| TokenBucket.ClosedForm | pkg/extensions/dea_ratelimit/limiter.go:116-158 | a call is admitted exactly when every window ending with it stays within capacity plus rate times elapsed |
| TokenBucket.ConformingIsAdmitted | pkg/extensions/dea_ratelimit/limiter.go:116-158 | traffic that conforms in every window is never rejected |
| TokenBucket.WindowBound | pkg/extensions/dea_ratelimit/limiter.go:116-158 | no window admits more than capacity plus rate times elapsed |
| TokenBucket.OnlyLatestMatters | pkg/extensions/dea_ratelimit/limiter.go:143-151 | on a clock that goes back only its running maximum matters |
| TokenBucket.ClosedFormAnyClock | pkg/extensions/dea_ratelimit/limiter.go:116-158 | closed form and window bound for any clock, in terms of its running maximum |
| Limiter.IdleIsFresh | pkg/extensions/dea_ratelimit/limiter.go:94-158 | under a rule that refills in ten minutes an idle bucket decides like a new one |
| Limiter.SweepingIsInvisible | pkg/extensions/dea_ratelimit/limiter.go:94-158 | interleaved sweeps change no decision of any run over any keys whose rules refill in ten minutes |
| Limiter.TinyNeverAdmits | pkg/extensions/dea_ratelimit/limiter.go:116-158 | a capacity below one token never admits |
| Limiter.SweepCanShow | pkg/extensions/dea_ratelimit/limiter.go:94-158 | for every other rule there is a run that shows the sweep |
| Limiter.SweepInvisibleExactly | pkg/extensions/dea_ratelimit/limiter.go:94-158 | under one rule no run shows the sweep exactly when its burst is refilled in 600 seconds, is below one or is not set |
| Limiter.EachKeyExactly | pkg/extensions/dea_ratelimit/limiter.go:94-158 | from outside: among any calls on other keys a call on a key is admitted exactly when every window of calls on it that ends there admits no more than the burst, or the rate if none is set, plus the rate times the time; sweeps make no difference if all rules refill in ten minutes |
| Limiter.NoRateNoLimit | pkg/extensions/dea_ratelimit/limiter.go:116-122 | a rule without a positive rate admits everything |
| LimiterShards.MaskIsShard | pkg/extensions/dea_ratelimit/limiter.go:108-113 | the masked hash is its remainder by 64 and so a shard index |
| LimiterShards.TokenLimiter.Allow | pkg/extensions/dea_ratelimit/limiter.go:116-158 | the sharded limiter decides and changes like one table |
| LimiterShards.TokenLimiter.Spend | pkg/extensions/dea_ratelimit/limiter.go:136-157 | the field-by-field arithmetic of a call is the specified decision |
| LimiterShards.TokenLimiter.Sweep | pkg/extensions/dea_ratelimit/limiter.go:94-107 | the sweep over shards and keys is the sweep of one table |
| LimiterShards.TokenLimiter.Len | pkg/extensions/dea_ratelimit/limiter.go:181-190 | the shard sizes add up to the number of buckets |
| LimiterShards.TokenLimiter.Utilization | pkg/extensions/dea_ratelimit/limiter.go:160-178 | a fraction between zero and one that gives back the tokens |
| Selection.TierIgnoresTies | pkg/core/routing/router.go:190-222 | what the draw chooses from does not depend on how the unstable sort left ties |
| Selection.Choose | pkg/core/routing/router.go:190-226 | the tier walk draws from everything that ties for best among the candidates left, and fails exactly when all are excluded |
| Selection.RouteOut | pkg/core/routing/router.go:171-227 | fails exactly when handlers fail, leave nothing, or everything is excluded; otherwise a best candidate not excluded |
| Selection.SortExists | pkg/core/routing/router.go:191-194 | any candidates can be sorted the way the choice asks for |
| Selection.OnlyBreaksTies | pkg/extensions/rt_load_balance/rt_load_balance.go:42-92 | for distinct peers a rescoring only breaks ties, whatever is excluded, exactly when it keeps strict order |
| Selection.TieBreakIsBest | pkg/extensions/rt_randomize/rt_randomize.go:37-68 | after such a rescoring what may be chosen might have been chosen before |
| Selection.LoadBalance | pkg/extensions/rt_load_balance/rt_load_balance.go:42-92 | one more point for the first least-loaded top candidate and no other change; strict order kept |
| Selection.IdleGoesFirst | pkg/extensions/rt_load_balance/rt_load_balance.go:46-82 | a peer nothing is known of counts as idle: if one is among the top, only an idle one at or before it gets the point |
| Selection.Randomize | pkg/extensions/rt_randomize/rt_randomize.go:37-68 | zero or one more point for each of several top candidates; strict order kept |
| Selection.BreakTies | pkg/extensions/rt_randomize/rt_randomize.go:32-68 | load balancing followed by randomising keeps strict order |
| PartnerRoutes.ElectWinner | pkg/extensions/dea_route/dea_route.go:256-273 | the loop elects the peer whose stretch holds the draw and never runs past the tier |
| PartnerRoutes.WinsExactlyTheShare | pkg/extensions/dea_route/dea_route.go:256-280 | over all draws an identity wins as often as the weight listed under it |
| PartnerRoutes.ElectionIsProportional | pkg/extensions/dea_route/dea_route.go:256-280 | with distinct identities each peer wins exactly its weight, or once if none is configured, and the wins use up all draws |
| PartnerRoutes.MergeOne | pkg/extensions/dea_route/dea_route.go:237-250 | one offer lifts the indexed entry if it scores less, or appends |
| PartnerRoutes.GroupTiers | pkg/extensions/dea_route/dea_route.go:219-227 | groups the peers by priority, in order |
| PartnerRoutes.ApplyPartnerPeers | pkg/extensions/dea_route/dea_route.go:207-254 | afterwards every peer's entry has the best of its earlier score and its offers; nothing else changed |
| PartnerRoutes.ScoresAre | pkg/extensions/dea_route/dea_route.go:229-250 | each score afterwards is one a candidate had or the base less ten for each step of priority, plus one for the elected peer; each partner peer has at least its own |
| PartnerRoutes.YieldsExactly | pkg/extensions/dea_route/dea_route.go:207-254 | one peer cannot be chosen before another exactly when each score it has or is offered is outscored |
| PartnerRoutes.EarlierTierFirst | pkg/extensions/dea_route/dea_route.go:229-250 | a peer of a later tier waits for an earlier one exactly when its earlier scores are outscored |
| PartnerRoutes.NewPeersWait | pkg/extensions/dea_route/dea_route.go:229-250 | peers not already scored higher wait for every earlier tier |
| PartnerRoutes.WinnerFirst | pkg/extensions/dea_route/dea_route.go:229-250 | the elected peer of a tier goes before its tier |
| PartnerRoutes.YieldsAfterTieBreaks | pkg/extensions/dea_route/dea_route.go:32-44 | the tie-breakers that run afterwards keep those orders |
| PartnerRoutes.DropForeignExternal | pkg/extensions/dea_route/dea_route.go:192-205 | drops exactly the external candidates of other partners |
| PartnerRoutes.HandleRouting | pkg/extensions/dea_route/dea_route.go:116-160 | off: nothing changes; both partners known, of different names and no transit allowed to the origin: no candidate is left; in every other case the partner's peers merged into the candidates left |
| PartnerRoutes.HandleThenBreakTies | pkg/extensions/dea_route/dea_route.go:32-44 | the same after both tie-breaking extensions, and every order among peers that the handler set up still holds |
| PartnerRoutes.RouteOverEdge | pkg/extensions/dea_route/dea_route.go:136-147 | a refused transit finds no peer, whatever other handlers, candidates and exclusions there are |
| PartnerRoutes.NoForeignPeer | pkg/extensions/dea_route/dea_route.go:116-160 | no peer of an external partner other than the destination's own remains exactly when the destination partner lists none |
| Relay.MintIsNew | pkg/core/peer/peer.go:437-442 | fewer than 2^32 IDs per peer: the next ID was never used on that connection |
| Relay.StepPreserves | pkg/core/routing/router.go:590-751 | every step of relays, fallback writes, answers, failover, expiry and peers keeps the correlation invariant |
| Relay.ReachableIsInv | pkg/core/routing/router.go:590-751 | it holds in every interleaving |
| Relay.ReachableE2es | pkg/core/peer/state_machine.go:1322-1343 | in every reachable state each answer passed up has the end-to-end ID of the request its key was minted for, unless that request had none |
| Relay.ForwardedToOriginator | pkg/core/routing/router.go:590-619 | an answer is forwarded only to the originator of the request sent under its key, under that request's ID, and only with that request's end-to-end ID, if it had one |
| Relay.NamesAreFixed | pkg/core/routing/router.go:695-727 | what an ID was minted for never changes later |
| Relay.ConsumedOnce | pkg/core/routing/router.go:599-604 | no transaction is used for two answers, however many a peer passes up |
| Relay.AnsweredAtMost | pkg/core/peer/state_machine.go:1322-1343 | a peer passes up at most one answer for each request it tracks, or two if one was accepted before the fallback write, each with the request's end-to-end ID, if it had one |
| Relay.AnswerHasBothIds | pkg/core/peer/state_machine.go:1330-1342 | in every reachable state an answer that is a retransmission, is not awaited or has another end-to-end ID than its request changes nothing that is passed up |
| Relay.RightAnswerIsTaken | pkg/core/peer/state_machine.go:1330-1342 | an awaited request takes precisely the answer with its end-to-end ID |
| Relay.WrongAnswerSpends | pkg/core/peer/state_machine.go:1334-1339 | an answer with the wrong end-to-end ID spends the request: the right one that follows is dropped |
| Relay.AnsweredTwiceExactly | pkg/core/peer/state_machine.go:1107-1122 | after a fallback write some run passes up two answers exactly when one was accepted before it |
| Relay.TwoAnswers | pkg/core/peer/peer.go:501-529 | for every request and peer, a run through the fallback queue that passes up two answers |
| Relay.AllOrNothing | pkg/core/routing/router.go:686-727 | a relay that gave up left no transaction and answers under the inbound ID; one that succeeded sent once |
| Relay.FailoverRemoves | pkg/core/routing/router.go:912-930 | the walk of a failover removes exactly the transactions from or to the peer |
| Relay.ExpiryRemoves | pkg/core/routing/router.go:974-994 | the walk of the sweep removes exactly those created before the cutoff |
| Relay.ForgottenIsDropped | pkg/core/peer/state_machine.go:1320-1342 | once a peer has forgotten what it awaits its answers are dropped, and no other peer's are |
| RelayLoop.Router.NextHopByHopID | pkg/core/peer/peer.go:437-442 | the next ID of one peer |
| RelayLoop.Router.TryPeer | pkg/core/routing/router.go:694-727 | one try stores a fresh transaction, or on refusal leaves transactions and message as they were |
| RelayLoop.Router.RelayRequest | pkg/core/routing/router.go:660-751 | the retry loop ends; success adds one fresh transaction after one accepted send, failure changes neither transactions nor the message's ID |
| RealmIndex.RealmMatches | pkg/core/edge/registry.go:509-529 | the linear matcher over patterns |
| RealmIndex.MatchesMeans | pkg/core/edge/registry.go:509-529 | octet by octet: a realm matches a pattern, each less one final dot, if they differ in letter case alone, or if the pattern starts with a star and a dot and the realm ends like the rest, in any case |
| RealmIndex.SortOrdered | pkg/core/edge/registry.go:125-128 | the stable sort puts longer suffixes first and keeps declaration order among equals |
| RealmIndex.ExactIsByName | pkg/core/edge/registry.go:115-123 | the exact map holds the last partner declaring each exact pattern |
| RealmIndex.SuffixListHolds | pkg/core/edge/registry.go:115-128 | the suffix list holds every wildcard pattern, in order |
| RealmIndex.Registry.Rebuild | pkg/core/edge/registry.go:105-128 | the loops build both indexes of the configuration |
| RealmIndex.Registry.PartnerForRealm | pkg/core/edge/registry.go:441-459 | exact patterns win, then the longest matching suffix, then the first declared |
| RealmIndex.OwnerOfAnySpelling | pkg/core/edge/registry.go:441-459 | the answer is the same for every letter case of the realm and with a final dot |
| Names.RealmKeys | pkg/core/edge/registry.go:308 | two realms have one key exactly when, each less one final dot, they differ in letter case alone |
| RealmIndex.OwnerIsTheMatch | pkg/core/edge/registry.go:441-529 | the partner found is unique, matches linearly, and exists exactly when some partner matches |
| PeerMachine.HandleNotStranded | pkg/core/peer/state_machine.go:105-706 | handling any event in any state keeps every waiting or open state timed |
| PeerMachine.NobodyIsStranded | pkg/core/peer/state_machine.go:105-706 | in every run each waiting state has its timer armed or a timeout queued, each open state a watchdog armed or fired with its timeout queued |
| PeerMachine.FromTheStart | pkg/core/peer/state_machine.go:105-706 | so it is in every state reachable from a new peer |
| PeerMachine.QuietWaitEnds | pkg/core/peer/state_machine.go:884-909 | a wait on which nothing comes is ended by its timer |
| PeerMachine.QuietOpenEnds | pkg/core/peer/watchdog.go:12-44 | an open connection on which nothing comes is retired by two watchdog timeouts |
| PeerMachine.TwoTimeoutsRetire | pkg/core/peer/state_machine.go:521-649 | two consecutive timeouts retire an open connection whatever is queued |
| PeerMachine.TimeoutRetires | pkg/core/peer/state_machine.go:159-706 | a timeout lets go of everything in every state that waits, doubts or closes |
| PeerMachine.ConnectionsAccounted | pkg/core/peer/state_machine.go:105-848 | no handler drops a connection unclosed or closes one it does not hold |
| PeerMachine.RequestIsDisposedOf | pkg/core/peer/state_machine.go:105-706 | a connection that comes with a request is kept, rejected or closed exactly outside Suspect, Closing and Zombie, where it is left as it is |
| PeerMachine.RejectedRequestBlocks | pkg/core/peer/state_machine.go:122-147 | a rejected request in Closed blocks later ones; an accepted one opens |
| PeerMachine.OnlyStartUnblocks | pkg/core/peer/state_machine.go:111-152 | only a start leads out of that |
| PeerMachine.ElectExactly | pkg/core/peer/state_machine.go:717-730 | Win-Election is queued exactly when the peer's lower-cased identity is a proper prefix of the local one or the local one has the greater octet where they first differ |
| PeerTable.FollowsTheTable | pkg/core/peer/state_machine.go:105-706 | wherever the table of RFC 6733 has a row for state and event, and what is sent goes out and what is received is in order, the handler takes the row: next state, messages, connections, timers and election; a peer not persistent ends instead of closing |
| PeerTable.Fails | pkg/core/peer/state_machine.go:111-454 | a send that fails or an answer that is no success closes instead, without another attempt |
| PeerTable.TurnsAway | pkg/core/peer/state_machine.go:111-649 | a request that cannot be accepted is turned away, the state stays, and its connection is closed except in Closed |
| PeerTable.NoRowNoEffect | pkg/core/peer/state_machine.go:105-706 | an event without a row does nothing, but for the watchdog in the open states |
| PeerTable.SuspicionEnds | pkg/core/peer/state_machine.go:612-664 | a message or watchdog answer leads from Suspect back to I-Open if the initiated connection is held, else to R-Open; a timeout or disconnection closes everything |
| PeerHandlers.Peer.HandleEvent | pkg/core/peer/state_machine.go:75-706 | the object, dispatching on its state and changed in place by the handler, does what the functions say, so every theorem about these is one about it |
| Collision.ActionKeeps | pkg/core/peer/state_machine.go:111-454 | every step of either node keeps the invariant of the pair |
| Collision.OneWinner | pkg/core/peer/state_machine.go:712-730 | in every run a node issues Win-Election only if the other's identity comes before its own, letter case aside, so at most one does |
| Collision.BothOpenOnOneTransport | pkg/core/peer/state_machine.go:111-454 | in every interleaving two open nodes are open on the same transport, one as initiator and one as responder |
| Collision.RequestsCross | pkg/core/peer/state_machine.go:159-287 | both requests can cross: a run in which both nodes wait for the election |
| Collision.GreaterOpensBoth | pkg/core/peer/state_machine.go:369-454 | from there the node with the greater identity can win and be open as responder with the other open as initiator |
| Collision.GreaterEndsInROpen | pkg/core/peer/state_machine.go:369-454 | and in every run it does: it alone moves first, and if its answer goes out it is in R-Open from then on and the other in I-Open or about to read that answer; if not, it never opens |
| Collision.TieBreakExactly | pkg/core/peer/state_machine.go:369-454 | from there both can open exactly when the identities differ in more than letter case |

## Left out

- Sockets, TLS, SCTP, HTTP, metrics, logging, configuration parsing and command-line tools: input and output without state worth proving.
- Wrap-around of the queue's 64-bit counters: head and tail are naturals; the wrapped difference in `Push` is modelled.
- Memory order of the queue's atomics: every load, store and compare-and-swap is one indivisible step.
- Locks of the pseudonym store, the limiter and the peer: their methods run one at a time, as under the lock.
- The event channel's capacity of 256 and the blocking of its senders: the queue of a peer is unbounded.
- IEEE rounding in the limiter: tokens, rates and times are reals.
- Letter case and white space outside ASCII: lower-casing and trimming act on single octets.
- Sharing of octets between a decoded message and its buffer: decoded data are values, so they cannot alias the pooled buffer; `ReadMessage` is proved for whatever the buffer held.
- In-place change through pointers to one AVP or bucket: lists and maps hold values and are replaced at the position changed.
- CodecBuffers.EncodeTo: the error returned for a child that does not fit is not modelled separately, since the buffer for the children is made to their measure.
- Answers without a transaction or whose originator cannot be looked up, local dispatch, loop detection and Route-Record handling in `RouteIn`: straight-line code around the correlation.
- Relay.ForwardedToOriginator: peers are told apart by identity, and reconnecting one identity without FailoverPeer starts no new counter in the model.
- Senders that are not peers, with the router's own ID counter: they appear in tests only.
- RelayLoop.Router.RelayRequest: handlers are confined to a finite set of next hops, which bounds the loop; the code states no bound.
- Peer bindings, zones and served realms of the registry: plain map look-ups and one more list matched like the patterns proved here.
- The initial candidates of the router: constant scores appended in order.
- HidingStore.MaskedIsRestored: assumes hosts without a bar, since the forward key is not prefix-free otherwise, and stable realms, whose exact condition is HidingStore.KeyIsNormalExactly.
- Hiding.NothingLeaks: whether an issued pseudonym is internal is a property of the configuration and the random label, and whether an AVP holds children one of the handlers before, so both stay conditions.
- StoreIsolation.SeparateExactly: a pseudonym drawn anew that equals another partner's key rebinds that key; the random source makes this improbable, not impossible, and the theorem is about other keys.
- StoreRefinement.StoreIsAMapWithExpiry: on hosts without a bar, the others being confused (StoreRefinement.BarConfuses).
- Collision.BothOpenOnOneTransport: assumes that each node dials at most once, no timer runs out and no operator stops a node; nothing is claimed beyond that.
- Traffic in open states in the pair of nodes: it only resets the watchdog, which PeerMachine covers.
- `extension.Manager`, `session.Manager`, `rt_session_bind` and `rt_rewrite`: bookkeeping easier than the stores proved here.
