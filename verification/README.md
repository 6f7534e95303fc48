# The relay, modelled and proved

This project models an Ethereum proposer-builder relay (mev-relay-rs) as state machines and proves what its
parts promise each other.  Four stories run through it.

1. **The auction and the reveal.**  Builders submit bids; the relay keeps the best bid of each *slot* and the
   payload to reveal for each *proposer*; a proposer is given a signed header and later redeems it for the payload.
   Two indexes, joined only by the duty list, have to agree.
   - `Datastore` and `UseCases` hold the two shared stores and the four use cases, as classes that update shared
     objects, each method proved to leave the stores as a function of their old contents says.
   - `AtomicRelay` runs one call at a time.  There the indexes always agree (`TwoIndexesAgree`), a reveal
     succeeds exactly when the last accepted bid of the proposer is asked for (`RevealSucceedsExactly`), and, while
     the head does not move back, a header handed out can be redeemed (`CommitThenReveal`).  Cache expiry is a step of the run (`Evict`), and
     none of these three theorems needs its absence.
   - `InterleavedRelay` runs any number of calls at once, each one access to the stores per step.  What is proved
     of it: provenance of everything cached, stored or revealed (`Provenance`), conservation of accepted bids and
     the value bound (`Agreement`), registration of every duty (`Registrations`), the retriever's double read
     (`DoubleRead`), and when a reveal succeeds and a header is redeemed (`Redemption`, with its own
     `RevealSucceedsExactly` and `CommitThenReveal`, in terms of what was stored last).  Full agreement of the indexes does *not* always hold here;
     `AgreementExactly` says when it does, and `Limits` has a run in which it is lost for good.
   - `SerialRuns` ties the two models: a task that is not interrupted does what the atomic call does, so every
     atomic run ends with the stores of some interleaving (`EveryAtomicRunIsARun`).
   - `Services` holds the two streaming loops on top of the use cases.
2. **The event stream.**  `SseLines` is the relay service's line reader, `SseBlocks` the gateway's block reader,
   `EventMerge` the merge of two streams by polling, and `BeaconFeed` that merge over two block readers.  Both readers are shown independent of how the text is cut,
   the line reader undoes printing (`SseRoundTrip`), and the two agree on well-formed streams (`SseAgreement`).
   `SseMeaning` spells out, by their literal texts, what each reader makes of a beacon node's messages.
   The format is a subset of the WHATWG HTML Living Standard, sections 9.2.5 and 9.2.6.
3. **Duty refresh.**  `DutySync` and `DutyCoverage`: refreshing once an epoch keeps the next slot's duty known.
   `HeadFeed`: a head event records the head whatever becomes of the duties, and opens the next slot alone.
4. **Signed roots.**  `MerkleTree`, `Ssz`, `HeaderSummary` and `SigningRoots`: the header is an SSZ summary of the
   payload (Ethereum consensus-specs, `ssz/simple-serialize.md`, sections "Merkleization" and "Summaries and
   expansions"), and roots bind what they are made of.  A hash into 32 bytes is not injective, so binding always
   reads "equal, or this pair of distinct inputs collides" with the pair computed by a function.
   `Wiring` puts the relay's own cryptography under story 1: what it accepts and stores was signed, and the end-to-end
   guarantee.

Signatures, the compression function, keccak and JSON decoding are function parameters about which nothing is
assumed.  All proofs hold for every choice of them.

## Where the code and its documentation differ

The model follows the code.

- `crates/gateway/src/beacon/events/mod.rs:43` compares windows of 4 bytes with a literal of 2 and line 48 drops 4,
  although a blank line, two bytes, ends a complete event.  As written no event is ever framed.  Width and
  delimiter are parameters of the model: `FramingNeedsTheRightWidth` says framing works if and only if the width is
  the literal's length, `AsWrittenOnlyErrors` what happens as written.
- The line reader dispatches an event on its `data:` line, not on the blank line that ends it
  (`crates/app/src/relay_service.rs:98-99`).
- The repository's README says that the full block is published to the beacon chain and that a validator commits
  without seeing the contents.  `UnblindBlockUseCase` only returns the payload, and the retriever sends the payload
  and the blobs next to the signed header (`crates/api/src/retriever_service.rs:82-102`).
- `head + 1` (`crates/entity/src/head_slot.rs:12`) wraps at the top of `u64` in a release build, which is what
  `NextSlot` does; a debug build would stop instead.

## False as promised, and exactly when true

- *A header can always be redeemed*, that is, revealed for a payload that builds it.  Not while calls overlap: it can
  be handed out before its payload is stored (`Limits.HeaderBeforeStore`), and a bid that was slow to win can replace
  the committed payload though everything is stored in order and the head only climbs
  (`Limits.SlowBidBreaksCommitment`).  Not when the head moves back, even one call at a time
  (`Limits.MovingHeadBackBreaksCommitment`).  And a reveal can succeed without redeeming: only block hashes are
  compared, and nothing ties a payload to the block hash it carries, so a higher bid with another payload under the
  same block hash is revealed in place of the committed one (`Limits.SuccessNeedNotRedeem`).
  - When a reveal succeeds, both ways: `Redemption.RevealSucceedsExactly` for every interleaved run,
    `Redemption.RevealInFlight` for a reveal in flight, `AtomicRelay.RevealSucceedsExactly` for every run of whole calls.
  - When a header is redeemed, both ways: `Redemption.CommitThenReveal` for every interleaved run, by what was stored
    last, and `AtomicRelay.RedeemedExactly` for every run of whole calls, by what was accepted last.
  - What a caller can see: if accepted bids of one block hash carry one payload, success is redemption
    (`Redemption.SuccessRedeems`, `AtomicRelay.SuccessRedeems`); if the committed bid is the one stored last, no accepted
    bid of the proposer waits to be stored and none is accepted from then on, a reveal with a valid signature and a
    known duty redeems (`Redemption.QuietCommitmentHolds`).
- *The header is of the parent that was asked for.*  Not when a bid's trace and payload name different parents
  (`Limits.HeaderOfAnotherParent`): `crates/usecase/src/get_header.rs:77` compares the trace's.  It is exactly when they
  name the same (`UseCases.HeaderIsAsAskedExactly`), and so with the block hash.
- *The stored payload is that of the best bid.*  Not when two accepted bids are stored in the other order
  (`Limits.OutOfOrderStoresDisagree`).  `Agreement.AgreementExactly` has the condition, both ways, for every run, and
  `Agreement.StoreDecides` the same before a store is made; `Agreement.OrderedStoresAgree` shows that storing in the
  order of acceptance meets it, and `Agreement.StoredIsBoundedByBest` says what holds without it.
- *Every slot's duty is known.*  Not when a fetch fails (`DutyCoverage.FailedFetchLosesTwoSlots`), and not when no
  block is seen in a refresh slot, though every fetch succeeds (`DutyCoverage.SkippedRefreshLosesSlot`).
  `DutyCoverage.StoredDutiesExactly` says what is known after every run, whatever fetches fail and slots are skipped,
  and `DutyCoverage.SlotIsKnownExactly` when a given slot is.

## Model

| member | source | states |
|---|---|---|
| `Datastore.FindDutyFindsFirst` | crates/datastore/src/storage/memory/storage.rs:89-96 | a lookup finds nothing exactly when no listed duty names the slot, and otherwise the first that does |
| `Datastore.FindDutyConcat` | crates/app/src/relay_service.rs:175-177 | in two epochs' duties stored together the first epoch's take precedence |
| `Datastore.MemoryStorage.constructor` | crates/datastore/src/storage/memory/storage.rs:13-46 | the seven fields start empty, with the given whitelist |
| `Datastore.MemoryStorage.SetValidatorRegistration` | crates/datastore/src/storage/memory/storage.rs:48-113 | one registration is set under the given key and every other field and key is left alone |
| `Datastore.MemoryStorage.SetProposerDuties` | crates/datastore/src/storage/memory/storage.rs:48-113 | the duty list is replaced and nothing else changes |
| `Datastore.MemoryStorage.FindDutyBySlot` | crates/datastore/src/storage/memory/storage.rs:89-96 | reads the first duty of the slot and changes nothing |
| `Datastore.MemoryStorage.SetBlindedBlockResponse` | crates/datastore/src/storage/memory/storage.rs:48-113 | the proposer's response is replaced and nothing else changes |
| `Datastore.MemoryStorage.ReadBlindedBlockResponse` | crates/datastore/src/storage/memory/storage.rs:48-113 | the proposer's response if there is one |
| `Datastore.MemoryStorage.SetDeliveredBlocks` | crates/datastore/src/storage/memory/storage.rs:48-113 | the hash is appended to the delivered list and nothing else changes |
| `Datastore.MemoryAuctioneer.CompareAndBid` | crates/datastore/src/auctioneer/memory/auctioneer.rs:22-43 | an atomic compare-and-replace: the slot changes hands exactly when vacant or strictly outbid; success means that the slot holds this very allocation, so re-offering the holder succeeds and an equal value from another allocation does not |
| `Datastore.MemoryAuctioneer.GetBestBid` | crates/datastore/src/auctioneer/memory/auctioneer.rs:45-50 | the cached bid of the slot, or the not-found error naming the slot |
| `AuctionHistory.BestIsFirstMaximum` | crates/datastore/src/auctioneer/memory/auctioneer.rs:22-50 | over any history to any slots the cached bid is the first offer that reaches the slot's maximum; there is one exactly when the slot was offered a bid |
| `AuctionHistory.WinsBeatAllEarlier` | crates/datastore/src/auctioneer/memory/auctioneer.rs:27-42 | a fresh offer succeeds if and only if it exceeds every earlier offer of its slot, so accepted values strictly increase |
| `AuctionHistory.SlotsAreIndependent` | crates/datastore/src/auctioneer/memory/auctioneer.rs:27-33 | a slot's best bid is what it would be if no other slot had ever been offered anything |
| `UseCases.SubmitBidUseCase.Execute` | crates/usecase/src/submit_bid.rs:23-76 | guards in the source's order with their errors; both indexes change together on acceptance and neither on any error |
| `UseCases.GetHeaderUseCase.Execute` | crates/usecase/src/get_header.rs:24-104 | the guards in order, reading only; a signed header of the cached bid of the next slot, for that slot's registered proposer, marked with the signer's fork |
| `UseCases.HeaderIsAsAskedExactly` | crates/usecase/src/get_header.rs:77-98 | a header handed out has the parent asked for if and only if the bid's payload and trace name one parent, and the trace's block hash if and only if they name one block hash |
| `UseCases.UnblindBlockUseCase.Execute` | crates/usecase/src/unblind_block.rs:20-101 | the guards in order with both indexes of a mismatch; delivered is appended to on success and only then |
| `UseCases.RegisterValidatorUseCase.Execute` | crates/usecase/src/register_validator.rs:20-46 | a verified registration is stored under its own key, any other leaves the store as it was |
| `AtomicRelay.RunIsLogged` | crates/usecase/src/submit_bid.rs:65-73 | after every run the two indexes are the last accepted bid per slot (while cached) and per proposer |
| `AtomicRelay.TwoIndexesAgree` | crates/usecase/src/submit_bid.rs:65-73 | after every run, evictions included, and for every proposer: the stored response is exactly payload and blobs of the last bid accepted for it, which is the last its slot accepted and, while cached, its best |
| `AtomicRelay.RevealSucceedsExactly` | crates/usecase/src/unblind_block.rs:27-100 | after every run of whole calls a reveal succeeds if and only if the slot has a duty of that index, the signature verifies and the last bid accepted for the proposer has that block hash; it returns that bid's payload and blobs |
| `AtomicRelay.DutiesAreRegistered` | crates/app/src/relay_service.rs:192-205 | every stored duty's proposer is registered |
| `AtomicRelay.RunFollowsRota` | crates/usecase/src/submit_bid.rs:38-73 | if the beacon node never names two proposers for a slot, neither do the duties nor the accepted bids |
| `AtomicRelay.AcceptedInHeadOrder` | crates/usecase/src/submit_bid.rs:38-45 | with a head that never decreases, bids are accepted in the order of the heads they were for, never ahead of the current one |
| `AtomicRelay.AcceptedAreSigned` | crates/usecase/src/submit_bid.rs:56-60 | after every run of whole calls each accepted bid carried a signature that verified |
| `AtomicRelay.HeaderIsOfLastAccepted` | crates/usecase/src/get_header.rs:60-103 | the bid whose header would be signed now is the last bid accepted for that proposer, in any slot |
| `AtomicRelay.CommittedIsStored` | crates/usecase/src/get_header.rs:71-103 | after a header was handed out and until a further bid for the proposer is accepted, payload and blobs of the committed bid are what is stored for it |
| `AtomicRelay.RedeemedExactly` | crates/usecase/src/unblind_block.rs:75-100 | after any further calls a header handed out is redeemed, by a successful reveal whose payload builds it, if and only if the duty is known with that index, the proposer signed and the payload of the last bid accepted for the proposer builds the header |
| `AtomicRelay.SuccessRedeems` | crates/usecase/src/unblind_block.rs:80-100 | if accepted bids of one block hash carry one payload, a successful reveal returns the committed payload |
| `AtomicRelay.CommitThenReveal` | crates/usecase/src/unblind_block.rs:27-100 | commit then reveal: a header handed out is redeemed by any later reveal with its block hash, the duty's index and a verifying signature; the payload returned builds that very header, and payload and blobs are the committed bid's |
| `InterleavedRelay.UninterruptedBid` | crates/usecase/src/submit_bid.rs:23-76 | six steps of a submission with nothing in between are the atomic call, results and errors included |
| `InterleavedRelay.UninterruptedRetrieve` | crates/api/src/retriever_service.rs:62-97 | an uninterrupted retrieval signs the bid the use case picks and reads that same bid again |
| `InterleavedRelay.UninterruptedUnblind` | crates/usecase/src/unblind_block.rs:20-101 | four steps of a reveal with nothing in between are the atomic call |
| `SerialRuns.RefreshAlone` | crates/app/src/relay_service.rs:168-205 | an uninterrupted refresh, its lookups taken one by one, stores what the atomic refresh stores |
| `SerialRuns.EveryAtomicRunIsARun` | crates/app/src/lib.rs:136-149 | every run of whole calls ends with the stores of some interleaving of steps |
| `InterleavedRelay.ScreenedAlone` | crates/usecase/src/submit_bid.rs:23-64 | the first four steps of a submission are the guards in order, with their errors |
| `InterleavedRelay.TraceOf` | crates/app/src/lib.rs:136-149 | every sequence of events on the shared stores has one trace of states |
| `Provenance.EveryBidIsAccounted` | crates/usecase/src/submit_bid.rs:23-76 | in every interleaving and at every moment, each cached bid and each stored response comes from a submission of nonzero value by a listed builder that matched head, attributes, duty and signature in that order, each when it read them, and then won its slot |
| `Provenance.EveryRevealIsAWinner` | crates/usecase/src/unblind_block.rs:75-100 | whatever a reveal returns is payload and blobs of such a bid, and has the block hash that was asked for |
| `Agreement.IndexesFollowTheLogs` | crates/usecase/src/submit_bid.rs:66-73 | in every interleaving the indexes are the last win per slot and the last store per proposer, and every accepted bid is either stored, once, or held by exactly the call that will store it |
| `Agreement.AcceptedValuesClimb` | crates/datastore/src/auctioneer/memory/auctioneer.rs:27-42 | without eviction the accepted values of a slot strictly increase and its last accepted bid is cached |
| `Agreement.StoredIsBoundedByBest` | crates/usecase/src/submit_bid.rs:66-73 | with any number of submissions in flight a stored response belongs to an accepted bid worth at most the current best of that bid's slot |
| `Agreement.WinnersAreAssigned` | crates/app/src/relay_service.rs:168-190 | duties, filters in progress and accepted bids all follow the beacon node's assignment |
| `Agreement.WinnersAreSigned` | crates/usecase/src/submit_bid.rs:56-60 | in every interleaving each accepted bid carried a signature that verified |
| `Agreement.AgreementExactly` | crates/usecase/src/submit_bid.rs:66-73 | in every interleaving the two indexes agree on a proposer if and only if no bid was accepted for it or the last response stored for it is that of the last bid accepted for it |
| `Agreement.OrderedStoresAgree` | crates/usecase/src/submit_bid.rs:66-73 | if a proposer's responses were stored in the order of acceptance and none is pending, the two indexes agree in full again |
| `Agreement.StoreDecides` | crates/usecase/src/submit_bid.rs:71-73 | a store leaves its proposer's indexes in agreement if and only if it stores payload and blobs of the last bid accepted for that proposer |
| `Redemption.RevealSucceedsExactly` | crates/usecase/src/unblind_block.rs:27-100 | after every interleaved run a reveal succeeds if and only if the slot has a duty of that index, the signature verifies and the bid stored last for the proposer has that block hash; it returns that bid's payload and blobs |
| `Redemption.RevealInFlight` | crates/usecase/src/unblind_block.rs:75-92 | whatever happens between the steps of a reveal, the store made last before it reads the response decides between success and its two errors |
| `Redemption.CommitmentsAgree` | crates/usecase/src/get_header.rs:36-90 | in every interleaving a retrieval past its duty check is by the slot's proposer, and what it hands out won that slot |
| `Redemption.CommitThenReveal` | crates/usecase/src/unblind_block.rs:27-100 | while calls overlap, at any later time: the reveal of a header handed out succeeds if and only if the duty is known with that index, the proposer signed, and what was stored last for it has the committed block hash; its payload builds the header, and it gives payload and blobs of the committed bid, each if and only if, the rest being as before, what was stored last does |
| `Redemption.SuccessRedeems` | crates/usecase/src/unblind_block.rs:80-100 | in every interleaving, if accepted bids of one block hash carry one payload, a successful reveal returns the committed payload |
| `Redemption.QuietStaysQuiet` | crates/usecase/src/submit_bid.rs:66-73 | with no accepted bid of a proposer waiting and none accepted, nothing is stored for it in any interleaving |
| `Redemption.QuietCommitmentHolds` | crates/usecase/src/unblind_block.rs:27-100 | a header whose bid is stored last, with none waiting and none accepted from then on, is redeemed for that bid's payload and blobs |
| `Registrations.DutiesStayRegistered` | crates/usecase/src/unblind_block.rs:47-59 | in every interleaving of registrations and refreshes, between fetches and between lookups too, every stored duty's proposer is registered under its own key with a verified signature, and the not-registered exit of a reveal is never taken |
| `Registrations.LastRegistrationStands` | crates/usecase/src/register_validator.rs:20-46 | in every interleaving what is registered for a key is the last registration of it whose signature verified, and nothing if there was none |
| `DoubleRead.BestSince` | crates/datastore/src/auctioneer/memory/auctioneer.rs:22-50 | from any state without eviction the cached bid is the last accepted since, worth strictly more, or the one that was there |
| `DoubleRead.PayloadIsAtLeastTheHeader` | crates/api/src/retriever_service.rs:70-100 | the payload sent is of a bid worth at least that of the signed header; the very same when none was accepted in between, and otherwise the last accepted, worth strictly more |
| `Limits.OutOfOrderStoresDisagree` | crates/usecase/src/submit_bid.rs:66-73 | a run without eviction after which nothing is pending and the proposer's stored payload is that of the losing bid |
| `Limits.HeaderBeforeStore` | crates/usecase/src/get_header.rs:71-103 | a run in which a header is handed out whose reveal then finds no response |
| `Limits.SlowBidBreaksCommitment` | crates/usecase/src/submit_bid.rs:38-73 | a run with a climbing head, no eviction and stores in the order of acceptance, in which a bid that passed its guards for the slot before costs a committed proposer its payload |
| `Limits.MovingHeadBackBreaksCommitment` | crates/usecase/src/unblind_block.rs:75-92 | a run of whole calls in which a head that moves back costs a committed proposer its payload |
| `Limits.SuccessNeedNotRedeem` | crates/usecase/src/unblind_block.rs:80-92 | a run of whole calls with a climbing head and no eviction in which the reveal of a header succeeds with a payload that does not build it |
| `Limits.HeaderOfAnotherParent` | crates/usecase/src/get_header.rs:77-98 | an accepted bid whose header, handed out for the parent asked for, has another parent |
| `Services.BidderService.HandleMessage` | crates/api/src/bidder_service.rs:41-109 | one message: the bid reaches the stores before the answer is tried, and the loop goes on unless the stream broke or nobody receives |
| `Services.BidderService.HandleRequest` | crates/api/src/bidder_service.rs:36-111 | the whole connection leaves the stores as the convertible messages it took, played one after another, and sends the answers in order while the receiver lives |
| `Services.CodeZeroMeansAccepted` | crates/api/src/bidder_service.rs:78-108 | the answer to a message has code 0 if and only if it converted and its bid was accepted when its turn came |
| `Services.StreamsKeepAgreement` | crates/api/src/bidder_service.rs:41-110 | after any run followed by a bidder connection of any length the two indexes agree on every proposer |
| `Services.RetrieverService.HandleMessage` | crates/api/src/retriever_service.rs:46-106 | one message: undisturbed, the payload and blobs sent beside a header are those of the bid the header was built from |
| `Services.HeaderGoesWithItsPayload` | crates/api/src/retriever_service.rs:62-102 | a header that goes out is signed, is built from the payload beside it, and payload and blobs are those of the slot's best bid |
| `Services.RetrieverService.HandleRequest` | crates/api/src/retriever_service.rs:38-109 | one answer per message in order; an error nobody receives does not end the loop, a header nobody receives or a broken stream does |
| `SseLines.SplitRebuilds` | crates/app/src/relay_service.rs:65-68 | lines and left-over rebuild the text, and neither holds a newline |
| `SseLines.SplitContinues` | crates/app/src/relay_service.rs:60-68 | splitting the left-over with more text continues the splitting of the whole, wherever it was cut |
| `SseLines.SplitOfUnlines` | crates/app/src/relay_service.rs:65-68 | any lines without newlines are the lines found in their text |
| `SseLines.ProcessConcat` | crates/app/src/relay_service.rs:86-115 | the parser's state carries over: lines in two parts give the events of the whole |
| `SseLines.SseReader.ProcessSseLine` | crates/app/src/relay_service.rs:86-115 | blank and comment lines change nothing, a type line replaces the pending type, a data line uses it up |
| `SseLines.SseReader.DrainLines` | crates/app/src/relay_service.rs:65-73 | the inner loop ends, by buffer length, having handled exactly the complete lines in order and leaving the rest |
| `SseLines.SseReader.ConnectSse` | crates/app/src/relay_service.rs:53-84 | for every cutting into chunks the events handled, the left-over and the pending type are those of the text received before the first transport error, whose message is returned |
| `SseRoundTrip.RoundTrip` | crates/app/src/relay_service.rs:63-115 | any printed messages, with comments and blank lines around and any chunking, are read back to exactly those of known type whose data decodes, with nothing left over |
| `SseMeaning.TrimStrips` | crates/app/src/relay_service.rs:93-97 | trimming takes the white space off both ends and leaves what is between |
| `SseMeaning.HeadIsRead` | crates/app/src/relay_service.rs:86-106 | the lines `event: head` and `data: ` with any data give, whatever type was pending, the head event the head decoder makes of that data, or nothing if it makes none |
| `SseMeaning.AttributesAreRead` | crates/app/src/relay_service.rs:86-106 | the lines `event: payload_attributes` and `data: ` with any data give the attributes event the attributes decoder makes of it, or nothing |
| `SseMeaning.OtherTypesAreNothing` | crates/app/src/relay_service.rs:98-115 | a message of any other type gives nothing and leaves no type pending |
| `SseMeaning.HeadTextIsRead` | crates/app/src/relay_service.rs:53-106 | the same from the whole text of a head message, for data without line feeds |
| `SseMeaning.AttributesTextIsRead` | crates/app/src/relay_service.rs:53-106 | the same from the whole text of an attributes message |
| `SseBlocks.FindIsFirst` | crates/gateway/src/beacon/events/mod.rs:43-46 | the position found is the first matching window; none is found only if there is none |
| `SseBlocks.RestHasNoWindow` | crates/gateway/src/beacon/events/mod.rs:43-46 | no complete block is ever left in the buffer |
| `SseBlocks.FramesContinue` | crates/gateway/src/beacon/events/mod.rs:41-60 | framing is independent of where the input is cut, inside a delimiter included |
| `SseBlocks.FramesFirst` | crates/gateway/src/beacon/events/mod.rs:43-48 | cutting at the first window gives the first block and leaves the blocks of what follows |
| `SseBlocks.SseByteStream.DrainBuffer` | crates/gateway/src/beacon/events/mod.rs:41-60 | the queue grows by the parsed events of exactly the buffer's complete blocks, and the rest stays |
| `SseBlocks.SseByteStream.PollNext` | crates/gateway/src/beacon/events/mod.rs:101-127 | conservation and progress: the event delivered is the next one owed (queued, framed or still to be read), none is lost by waiting, None comes exactly when the inner stream said so and only when nothing is owed, queued events go out without asking the inner stream, and a poll waits only when the inner stream has no answer left or its last answer was to wait |
| `SseBlocks.SseByteStream.PollOnce` | crates/gateway/src/beacon/events/mod.rs:101-127 | one poll delivers what is owed next, and ends the stream, leaves less to do, or has nothing left to do |
| `SseBlocks.SseByteStream.PollMany` | crates/gateway/src/beacon/events/mod.rs:101-127 | over any number of polls what came out and what is owed are what was owed at first; with more polls than inner answers and events owed, everything owed has come out, and the stream has ended if and only if its input has an end |
| `SseBlocks.CutsDoNotMatter` | crates/gateway/src/beacon/events/mod.rs:41-60 | for every chunking and every poll schedule the events owed are those of the whole text |
| `SseBlocks.FramingNeedsTheRightWidth` | crates/gateway/src/beacon/events/mod.rs:43-48 | some buffer is framed if and only if the window width is the length of the literal |
| `SseBlocks.AsWrittenOnlyErrors` | crates/gateway/src/beacon/events/mod.rs:43-48 | with widths that differ, as written, nothing but transport errors is ever delivered |
| `SseAgreement.ParseEvent` | crates/gateway/src/beacon/events/mod.rs:62-95 | the loop over a block's lines: last type wins, trimmed data joined by spaces, no event without both |
| `SseMeaning.HeadBlockIsParsed` | crates/gateway/src/beacon/events/mod.rs:62-95 | the block of a head message gives the head event the head decoder makes of its trimmed data, an error if it makes none, and nothing if the data is blank |
| `SseMeaning.AttributesBlockIsParsed` | crates/gateway/src/beacon/events/mod.rs:62-95 | the same of an attributes message and the attributes decoder |
| `SseMeaning.OtherBlocksAreNothing` | crates/gateway/src/beacon/events/mod.rs:83-89 | a block of any other type gives nothing, not even an error |
| `SseMeaning.LastTypeAndJoinedData` | crates/gateway/src/beacon/events/mod.rs:66-78 | after any lines without data the last type line decides the type, and any number of data lines after it are trimmed and joined by single spaces |
| `SseMeaning.TypeLineReplaces` | crates/gateway/src/beacon/events/mod.rs:66-70 | a type line among data lines replaces the type and leaves the data |
| `SseAgreement.ParsersAgreeOnMessage` | crates/app/src/relay_service.rs:86-115 | on a type line followed by a trimmed data line both parsers give the same event; undecodable data is an error to one and nothing to the other |
| `SseAgreement.StreamFrames` | crates/gateway/src/beacon/events/mod.rs:41-60 | a stream of messages is framed into exactly those messages |
| `SseAgreement.LinesMatchBlocks` | crates/app/src/relay_service.rs:86-115 | over the lines of a stream the line reader gives the successes of the block parser in order |
| `SseAgreement.ReadersAgree` | crates/gateway/src/beacon/events/mod.rs:41-127 | the two readers, framing and parsing together, deliver the same events of every stream of messages, however it is cut |
| `EventMerge.BeaconEventsStream.PollNext` | crates/gateway/src/beacon/events/stream.rs:24-55 | one poll: attributes first, the head stream only if that gave nothing and did not fail; an event, the end or a wait, as the answers decide |
| `EventMerge.BeaconEventsStream.PollMany` | crates/gateway/src/beacon/events/stream.rs:24-55 | the output is an interleaving of the events both streams gave, none lost, repeated or reordered; the merge is done exactly when the last answer of one of them stops it and no earlier answer did; until then the attributes stream was asked in every poll and the head stream in every poll in which that gave no event |
| `EventMerge.InterleavedStep` | crates/gateway/src/beacon/events/stream.rs:24-55 | one more poll keeps the output an interleaving |
| `EventMerge.MergingStep` | crates/gateway/src/beacon/events/stream.rs:24-55 | one more poll asks the streams in turn, and either goes on or ends the merge at the answer that stops it |
| `BeaconFeed.Answers` | crates/gateway/src/beacon/events/mod.rs:101-127 | the answers of a reader deliver what it owed in order, and it ends only when everything owed is delivered; with more answers than the reader has work everything owed has been delivered |
| `BeaconFeed.MergedFeeds` | crates/gateway/src/beacon/events/stream.rs:24-55 | by what the readers owed, what goes out interleaves a first part of each, with at most the last outcome a failure, and is over only after a failure or when every event the head reader owed has gone out |
| `BeaconFeed.MergedAll` | crates/gateway/src/beacon/events/stream.rs:24-55 | a merge that is not over after more polls than both readers have work has given out everything both owed |
| `BeaconFeed.Merge` | crates/gateway/src/beacon/events/stream.rs:24-55 | so it is for the merge of any two readers, however often polled; with more polls than both have work, and no failure and no end of the head reader's input, every event both owed has gone out, and only such a failure or end stops the merge |
| `DutySync.FilterKeepsRegistered` | crates/app/src/relay_service.rs:192-205 | the duties kept are exactly those whose proposer is registered |
| `DutySync.RelayService.KeepRegistered` | crates/app/src/relay_service.rs:192-205 | the duties kept, one lookup each, are the list without the unregistered ones, in order; none when nobody is registered |
| `DutySync.RelayService.HandlePayloadAttributesEvent` | crates/app/src/relay_service.rs:139-166 | the attributes are recorded if both texts parse, and otherwise nothing changes |
| `DutySync.RelayService.SyncDuties` | crates/app/src/relay_service.rs:168-190 | both epochs' filtered duties replace the list at once; without the next epoch's answer only the current one's; without the current one's nothing changes and the call fails |
| `DutySync.RelayService.HandleHeadEvent` | crates/app/src/relay_service.rs:126-137 | the head is recorded, and only on the refresh slot are duties replaced |
| `HeadFeed.HeadIsRecorded` | crates/app/src/relay_service.rs:126-137 | for every head, epoch length, answers and state the head of the event is recorded, and nothing but head and duties changes, the duties only on a refresh slot with a first answer |
| `HeadFeed.LastHeadStands` | crates/app/src/relay_service.rs:126-137 | along every run the head is that of the last head event, whichever fetches failed |
| `HeadFeed.OnlyNextSlotIsOpen` | crates/entity/src/head_slot.rs:11-14 | after a head event for h a nonzero bid of a listed builder is refused for its slot if and only if that is not h+1, and no bid of another slot is accepted |
| `HeadFeed.OnlyNextHeaderIsOpen` | crates/usecase/src/get_header.rs:60-69 | after a head event for h a header is handed out for h+1 alone |
| `HeadFeed.HeadEventIsCalls` | crates/app/src/relay_service.rs:126-190 | a head event as it is handled is the head and, on a refresh slot, the refresh of the relay's runs |
| `DutyCoverage.RefreshSlots` | crates/entity/src/head_slot.rs:16-24 | each epoch e of at least two slots has exactly one refresh slot, eN+1, and an epoch of one slot none |
| `DutyCoverage.FindInFiltered` | crates/app/src/relay_service.rs:192-205 | with one duty per slot, filtering and looking up commute |
| `DutyCoverage.RefreshCovers` | crates/app/src/relay_service.rs:168-190 | a refresh answers for every slot of the epochs it fetched, as expected, and for no other slot |
| `DutyCoverage.CoveredSince` | crates/app/src/relay_service.rs:126-137 | from a refresh of epoch e until the next one that stores, the slots asked about at heads eN+1 to (e+1)N are answered |
| `DutyCoverage.NextSlotIsCovered` | crates/app/src/relay_service.rs:126-190 | along every run with climbing heads and successful fetches that visited the serving refresh slot, the lookup for h+1 is exactly the beacon node's duty if its proposer was registered at the refresh, and nothing otherwise |
| `DutyCoverage.StoredDutiesExactly` | crates/app/src/relay_service.rs:126-205 | after every run from any state, with truthful answers, heads in any order, any fetches failing and any refresh slots skipped, the stored duties answer exactly for the epochs the last refresh with a first answer fetched, with the registrations of that moment, and are untouched if there was none |
| `DutyCoverage.SlotIsKnownExactly` | crates/app/src/relay_service.rs:126-205 | a slot has a duty if and only if that refresh fetched its epoch and its proposer was registered then; the duty is the beacon node's |
| `DutyCoverage.TruthfulBeacons` | crates/app/src/relay_service.rs:168-190 | there are beacon nodes that name one proposer for each slot of each epoch |
| `DutyCoverage.FailedFetchLosesTwoSlots` | crates/app/src/relay_service.rs:168-190 | one failed fetch of either epoch, with any later refreshes failing too, leaves precisely (e+1)N and (e+1)N+1 uncovered among the slots asked about in epoch e's window |
| `DutyCoverage.SkippedRefreshLosesSlot` | crates/app/src/relay_service.rs:126-137 | for epochs of three slots or more, a refresh slot without a block leaves the slot after that epoch unknown, with climbing heads and no failed fetch |
| `MerkleTree.ZeroPadding` | crates/entity/src/types.rs:21-104 | writing a padding chunk out does not change a root |
| `MerkleTree.RootIsTopNode` | crates/entity/src/execution_payload.rs:29-95 | the root is the top of the tree defined level by level, where a node hashes the two below it, the left one first, and leaf i stands at index i with zero chunks beyond the end |
| `MerkleTree.RootOfTwo` | crates/crypto/src/fork.rs:100-106 | the root of two leaves a and b is the hash of a and b, in this order |
| `MerkleTree.RootBinds` | crates/entity/src/execution_payload.rs:29-95 | equal roots of equally many leaves mean equal leaves, or the pair found collides |
| `MerkleTree.ListRootBinds` | crates/entity/src/execution_payload.rs:13-95 | equal list roots also bind the length |
| `Ssz.LittleEndianInjective` | crates/usecase/src/unblind_block.rs:110-112 | the fixed-width layout determines the number |
| `Ssz.LittleEndianValue` | crates/usecase/src/unblind_block.rs:110-112 | the sum of byte i times 256 to the i is the number |
| `Ssz.PackedAt` | crates/entity/src/execution_payload.rs:13-95 | byte i of a byte list is in chunk i/32 at i%32, and the rest is zero |
| `Ssz.AddressTreeHashRoot` | crates/entity/src/types.rs:51-68 | the buffer filled in place is the address followed by zeros |
| `Ssz.U256RootInjective` | crates/entity/src/types.rs:91-104 | the hand-written root of a 256-bit number determines it |
| `Ssz.BytesBind` | crates/entity/src/execution_payload.rs:13-95 | equal roots of byte lists mean equal bytes and lengths, or a collision is exhibited |
| `HeaderSummary.HeaderIsSummary` | crates/entity/src/signed_header.rs:18-47 | for every payload with any transactions and withdrawals the built header has the payload's leaves, each at the same index, and the payload's hash tree root |
| `HeaderSummary.HeaderLeafIndexes` | crates/entity/src/execution_payload.rs:63-95 | which field is which of the seventeen leaves |
| `HeaderSummary.WithdrawalLeafIndexes` | crates/entity/src/execution_payload.rs:13-27 | which field is which of the four leaves, with the bytes of each |
| `HeaderSummary.HeaderBinds` | crates/entity/src/execution_payload.rs:29-95 | equal header roots mean equal headers, or a collision is exhibited |
| `HeaderSummary.TransactionsBind` | crates/entity/src/signed_header.rs:21 | equal transaction roots mean equal transaction lists, or a collision is exhibited |
| `HeaderSummary.WithdrawalsBind` | crates/entity/src/signed_header.rs:22 | equal withdrawal roots mean equal withdrawal lists, or a collision is exhibited |
| `HeaderSummary.HeaderCommitsToPayload` | crates/entity/src/signed_header.rs:18-47 | a header commits to one payload, transactions and withdrawals included, or a collision is exhibited |
| `SigningRoots.BlindedBlockSigningRoot` | crates/usecase/src/unblind_block.rs:104-118 | the buffers extended in place hold slot, index and hash in 8, 8 and 32 bytes, then the hash and the domain |
| `SigningRoots.PreimageLayout` | crates/usecase/src/unblind_block.rs:110-113 | the bytes hashed are 48: eight that stand for the slot, eight that stand for the index, then the block hash |
| `SigningRoots.BlindedBlockRootBinds` | crates/usecase/src/unblind_block.rs:104-118 | for all slots and indexes equal roots mean the same slot, index, block hash and domain, or one of two named pairs collides |
| `SigningRoots.ComputeDomain` | crates/crypto/src/fork.rs:100-123 | the array filled from two slices is the type followed by 28 bytes of the fork data root |
| `SigningRoots.DomainLayout` | crates/crypto/src/fork.rs:10-28 | the builder's domain begins 0, 0, 0, 1 and the proposer's 0, 0, 0, 0; the other bytes begin the root of the container of version and genesis root |
| `SigningRoots.SigningRootIsOfContainer` | crates/crypto/src/fork.rs:177-191 | a signing root is the root of the container of the message's root and the domain, in this order |
| `SigningRoots.RolesAreSeparated` | crates/crypto/src/fork.rs:108-123 | builder and proposer domains differ for all fork data, so no message has one signing root in both roles unless an exhibited pair collides |
| `SigningRoots.BidSignatureBinds` | crates/entity/src/bid_trace.rs:11-32 | two bid traces with one signing root are the same in every field, or a collision is exhibited |
| `SigningRoots.BidTraceLeafIndexes` | crates/entity/src/bid_trace.rs:11-22 | which field is which of the nine leaves, with the bytes of each |
| `SigningRoots.RegistrationLeafIndexes` | crates/entity/src/validator.rs:8-32 | which field is which of the four leaves, with the bytes of each |
| `SigningRoots.RegistrationSignatureBinds` | crates/entity/src/validator.rs:8-32 | two registrations with one signing root are the same in every field, or a collision is exhibited |
| `Wiring.AcceptedWasSigned` | crates/entity/src/bid_trace.rs:28-31 | in every interleaving each accepted bid carries a signature that verifies under its builder's key over the signing root of its trace in the builder domain; any trace with that signing root is this one, or a collision is exhibited |
| `Wiring.AcceptedCallWasSigned` | crates/usecase/src/submit_bid.rs:56-60 | the same of every run of whole calls |
| `Wiring.UnsignedIsRefusedExactly` | crates/usecase/src/submit_bid.rs:23-60 | a bid is refused for its signature if and only if it passes every guard before that and the signature does not verify |
| `Wiring.RegisteredWasSigned` | crates/entity/src/validator.rs:25-32 | in every interleaving what is registered for a key is of that key, with a signature that verifies under it; any registration with that signing root is this one, or a collision is exhibited |
| `Wiring.RegisteredCallWasSigned` | crates/usecase/src/register_validator.rs:20-46 | each registration stored after a run of whole calls is of its key and verified under it |
| `Wiring.RegistrationDecides` | crates/usecase/src/register_validator.rs:20-46 | a registration replaces that of its key exactly when its signature verifies under that key in the builder domain |
| `Wiring.UnsignedRevealIsRefusedExactly` | crates/usecase/src/unblind_block.rs:61-73 | a reveal is refused for its signature if and only if the slot has a registered proposer's duty of that index and the signature does not verify under that proposer's key in the proposer domain; none succeeds without one that does |
| `Wiring.SignedRootIsRedeemed` | crates/app/src/lib.rs:136-149 | end to end, with the relay's own roots and domains: a later verified reveal returns a payload with the very root the relay signed, and any other payload with that header root exhibits a collision |

## Left out

- Transport: gRPC, channels, the generated protocol code, HTTP clients, the beacon command actor, the health server, command line and configuration.  Beacon replies are inputs of steps.
- Conversion of protocol messages (`crates/api/src/conversion.rs`) is an input of each message; `from_slice` panics on a field of the wrong length, which the model does not have.
- `RetrieverService.submit_blinded_block` only wraps the reveal.
- BLS arithmetic, key and signature decoding, keccak and SHA-256 are uninterpreted; JSON decoding is an uninterpreted partial function from text to events.
- UTF-8: the readers work on characters and chunks are cut between characters, so lossy decoding of a split character is not modelled.
- The cache's timers and capacity: one atomic compare-and-replace and an explicit `Evict` step, at any time.
- `set_validator_registrations`, which replaces the whole map and has no caller in the running relay.
- The polling loop and the reconnecting loop of the relay service, which reach the stores through the same head handling; how a payload-attributes event's strings are parsed (whether each parses, and to what, is an input).
- Error texts and log lines.
- A polled stream is a finite schedule of answers; after it, the stream is not ready.  Polling a stream after its end is not modelled, and `PollMany` stands for the consumer.
- Services.RetrieverService.HandleMessage: the stores stand still between its two reads; `DoubleRead.PayloadIsAtLeastTheHeader` has the interference.
- Services.RetrieverService.HandleRequest: the loop undisturbed by other calls; `DoubleRead.PayloadIsAtLeastTheHeader` has the interference.
- DutyCoverage.NextSlotIsCovered: a refresh is one step with its head event; its interleaving with registrations is in `Registrations`, and slots are below the top of `u64`.
