# Aperture in Dafny

A model of the hard parts of Aperture, an L402 proxy for the Lightning network, with proofs of what
they promise. `dafny verify dfyconfig.toml` checks everything.

The proofs cover five components.

**The hashmail mailbox.** `BigSize`, `Runs` and `MailboxFraming` hold the framing, the copier and the
reader loop, as loops over pipes and buffers. `MailboxRun` is the same stream as concurrent parts, with
every interleaving of writer, copier, reader, handlers and tear-down. `MailboxServer` holds the read and
write tokens, the stale timer and the registry of streams.

**The paying client.** `TokenCodec` and `TokenStore` hold the token files, with every write whole, missing
or torn. `Payment` is the interceptor with lnd beside it, crashing anywhere.

**Caveats, mint and verification.** `Text`, `Caveats`, `Services`, `Limiter`, `Identifier` and `Mint` go
from strings to a minted macaroon and back. `Encodings` and `Header` hold the HTTP header fields, and
`Auth` the authenticator over every history of the mint and of the challenger.

**The invoice challenger.** `Challenger` holds the paged load and the update stream, `InvoiceWaiters` any
number of callers waiting on the condition variable, each statement inside the mutex a step of its own.

**Supporting protocols.** `Transactions` and `Onion` hold the retry loop and the single onion key,
`Freebie` the free requests.

State machines have the same shape everywhere: `Enabled` and `Apply` give the steps, `Valid` and `After`
the runs, `Reachable` the states of all runs. Where the program updates things in place there is a class
beside the machine whose methods are proved to make the machine's steps.

## What the proofs found

The model follows the code. Where the code does less than one would expect, the exact condition is proved.

- A frame whose length is a multiple of 4096 swallows the next one: of each maximal run of such frames
  only the first message is returned, and nothing is lost exactly when there is no such frame
  (`MailboxFraming.Transfer`). The smallest such message has 4093 bytes (`MailboxFraming.SmallestFullFrame`).
- During a tear-down a message can be dropped and a later one still be returned, so the messages read
  need not be a prefix; `MailboxRun.PrefixAfterQuit` says exactly when, and `MailboxRun.SkipIsReachable` that it happens.
- A stream torn down while a handler holds it gets its stale timer armed again when the handler leaves, and
  that timer can tear down a later stream of the same ID (`MailboxServer.BusyTearDownLeadsToBusyHit`).
- `Stop` leaves the streams registered, so a later tear-down closes the quit channel twice
  (`MailboxServer.TearDownAfterStopPanics`).
- A negative cost limit becomes a huge one (`Payment.ToMsatExact`).
- An invoice with an expiry beyond 292 years counts as expired at once (`Challenger.LongExpiryWraps`).
- An identifier cut inside its token ID still decodes (`Identifier.ShortIdentifierIsPadded`).
- Service names with `,` or `:` do not survive the services caveat, and one with both can name two services
  (`Services.NamesMustAvoidSeparators`, `Services.NamesCanSmuggle`).
- A token minted for no service is good for every service (`Mint.NoServicesNoLimits`).
- A service configured with price zero is offered for one satoshi, but its limits are kept under price zero: its
  tokens never expire (`Mint.ChallengeVerifiesIff`). The same holds at any dynamic price but the configured one.
- Of several Authorization values the last one decides, so a configured Authorization field replaces the
  client's credentials (`Header.DirectorForwards`).
- An empty onion key, with a driver that scans it into nil, is overlooked (`Onion.StoreKeepsAtMostOne`).
- All addresses that are not IPv4 share one freebie counter (`Freebie.KeysAreNetworks`); the package comment
  speaks of dropping the last byte of an address only.

## Assumptions

lnd is honest: a payment it reports as failed never succeeds, a success comes with a preimage that is not
zero, it pays the invoice's amount, keeps to the fee limit and refuses invoices without an amount. Its
invoice list does not change during the load, and indices grow along it. A settled invoice stays settled.
The macaroon signature is any keyed fold over the caveats; that nobody can sign without adding caveats to a
macaroon handed out is a hypothesis (`Auth.Unforged`) of the one lemma that needs it. SHA-256 is any
function; that it does not confuse the identifiers at hand is a hypothesis (`Auth.NoCollision`). New token
IDs are fresh. Marshalling a macaroon and reading it back gives the same macaroon (`TokenCodec.Lawful`).
Transactions are serializable and a failed commit has no effect. Clocks, random values and the answers of
lnd, the file system and the database are parameters.

## Model

| member | source | states |
|---|---|---|
| BigSize.ReadAfterWrite | hashmail_server.go:139-146 | the length prefix is read back from any stream it starts, for every uint64 |
| BigSize.OnlyCanonicalFormsRead | hashmail_server.go:91-96 | whatever reads as a length is the one canonical encoding of it |
| BigSize.WireForm | hashmail_server.go:139-146 | the prefix has one, three, five or nine bytes with the discriminants of BOLT #1, and the value follows big-endian |
| Bytes.MostSignificantFirst | l402/identifier.go:27-29 | numbers are stored with the most significant byte first |
| Runs.RunsPartition | hashmail_server.go:263-270 | cutting at frames that do not fill blocks gives back the sequence, in maximal runs |
| Runs.RunsUnique | hashmail_server.go:263-270 | no other cut into such runs exists |
| Runs.RunsAreSingle | hashmail_server.go:263-270 | when no element joins its successor, every run is one element |
| Runs.RunsAreFewer | hashmail_server.go:263-270 | there are as many runs as elements only when no element joins its successor |
| MailboxFraming.UnframeAfterFrame | hashmail_server.go:91-103 | unframing a frame followed by anything gives the message |
| MailboxFraming.UnframeIsLenient | hashmail_server.go:91-103 | the length limits what is read, fewer bytes are no error, and what is no length is one |
| MailboxFraming.FeedWriteWhole | hashmail_server.go:251-270 | how a Write read in 4096-byte blocks changes the reader depends only on whether its length fills them |
| MailboxFraming.CopyPiecesInvisible | hashmail_server.go:234-245 | a Write cut up by the copier's 32 KiB buffer leaves the reader as the whole Write does |
| MailboxFraming.CopyInvisible | hashmail_server.go:234-245 | the reader loop makes the same chunks with the copier in between as without it |
| MailboxFraming.ReadingNextFrame | hashmail_server.go:251-276 | one more frame extends the open run or completes it |
| MailboxFraming.ReaderCutsAtRuns | hashmail_server.go:249-277 | for every sequence of messages the chunks are exactly the completed runs of frames |
| MailboxFraming.ChunkYieldsHead | hashmail_server.go:78-103 | a chunk of several frames unframes to the first message |
| MailboxFraming.Pipe.Read | hashmail_server.go:251-255 | one Read takes bytes of one Write only, as many as fit |
| MailboxFraming.WriteAll | hashmail_server.go:131-158 | the writer puts one frame per message into the pipe |
| MailboxFraming.Copy | hashmail_server.go:238-242 | the copier's loop passes on every Write in pieces of its buffer's size |
| MailboxFraming.ReadChunks | hashmail_server.go:249-277 | the nested reader loops over a 4096-byte buffer compute the chunks |
| MailboxFraming.ReadMessages | hashmail_server.go:78-103 | one message per chunk, the first of its run |
| MailboxFraming.CutIsPartition | hashmail_server.go:263-270 | the runs of a message list partition it and none is empty |
| MailboxFraming.SmallestFullFrame | hashmail_server.go:139-158 | the smallest message whose frame fills its blocks has 4093 bytes |
| MailboxFraming.FullFrameSwallows | hashmail_server.go:263-270 | of such a frame and the next one only one chunk is made |
| MailboxFraming.SingleRuns | hashmail_server.go:263-270 | the first messages of the runs are all messages if and only if no frame fills its blocks |
| MailboxFraming.Transfer | hashmail_server.go:78-158 | end to end the messages received are the first of each run; they are all of them, in order, if and only if no frame fills its blocks |
| MailboxRun.StepKeepsInv | hashmail_server.go:222-277 | every step of writer, copier, reader, handler and tear-down keeps the position invariant |
| MailboxRun.ReceivedIsSubsequence | hashmail_server.go:222-277 | over every interleaving and tear-down, messages returned are a subsequence of those written, none truncated or duplicated |
| MailboxRun.ReceivedBeforeQuit | hashmail_server.go:222-277 | before quit closes they are the first messages of the first runs, in order |
| MailboxRun.ReceivedIsPrefixBeforeQuit | hashmail_server.go:222-277 | and a prefix of the messages written when no frame fills blocks |
| MailboxRun.NothingIsLostBeforeClose | hashmail_server.go:234-277 | with nothing in flight every completed run has been delivered |
| MailboxRun.DeliveryIsPossible | hashmail_server.go:234-277 | from every state before the tear-down everything complete can still be delivered |
| MailboxRun.ReceivedByFate | hashmail_server.go:272-275 | the messages returned are those whose chunk was taken, not discarded |
| MailboxRun.NoSkip | hashmail_server.go:222-232 | without a message behind the one offered, every continuation after quit stays a prefix |
| MailboxRun.SkippingRun | hashmail_server.go:272-275 | with one, there is a run that discards the first and returns the second |
| MailboxRun.PrefixAfterQuit | hashmail_server.go:222-277 | after quit closes the prefix property holds in every continuation if and only if no such message is behind |
| MailboxRun.SkipIsReachable | hashmail_server.go:222-277 | two different one-byte messages lead to a state from which the first can be skipped |
| MailboxRun.TearDownTerminates | hashmail_server.go:222-277 | after quit closes every run is finite and stops only when both goroutines have returned, with or without a reader |
| MailboxServer.StepKeepsInv | hashmail_server.go:293-333 | every step but Stop keeps tokens, flags, timer and registry consistent |
| MailboxServer.OneReaderOneWriter | hashmail_server.go:293-333 | each token is parked or with exactly one handler |
| MailboxServer.ReturnNeverBlocks | hashmail_server.go:293-304 | a handler can always return its token at once |
| MailboxServer.RegistryIsExact | hashmail_server.go:392-412 | the registry holds exactly the streams not torn down, and none is torn down twice |
| MailboxServer.TimerRunsWhileIdle | hashmail_server.go:806-843 | with staleness enabled the timer is armed exactly while both tokens are parked |
| MailboxServer.InitMakesStream | hashmail_server.go:431-469 | a new ID gets a stream with both tokens parked, an active one stays as it is |
| MailboxServer.TakeReadIff | hashmail_server.go:308-319 | a registered stream without a reader is handed to whoever asks; otherwise nothing changes |
| MailboxServer.TakeWriteIff | hashmail_server.go:323-333 | the same for the writer |
| MailboxServer.ReturnFrees | hashmail_server.go:293-304 | a returned token is parked for the next one to take, and nothing else changes |
| MailboxServer.TearDownCloses | hashmail_server.go:502-540 | exactly the named stream is closed and leaves the registry |
| MailboxServer.StaleStreamIsTornDown | hashmail_server.go:392-412 | the timer can fire if and only if both tokens are parked, and then tears its stream down |
| MailboxServer.TearDownAfterStopPanics | hashmail_server.go:379-390 | after Stop the next tear-down closes quit a second time |
| MailboxServer.BusyHitNeedsBusyTearDown | hashmail_server.go:826-843 | a timer hits a held stream only if its own stream was torn down while held |
| MailboxServer.BusyTearDownLeadsToBusyHit | hashmail_server.go:826-843 | and whenever a stream is torn down while held, some run leads there |
| MailboxServer.HashMailServer.constructor | hashmail_server.go:359-375 | an empty registry; a negative timeout disables staleness |
| MailboxServer.HashMailServer.InitStream | hashmail_server.go:431-469 | a new stream with both tokens parked, or nothing when the ID is active |
| MailboxServer.HashMailServer.LookUpReadStream | hashmail_server.go:473-483 | given out if and only if registered and without a reader; then the caller is the only reader, the timer stops and other streams stay |
| MailboxServer.HashMailServer.LookUpWriteStream | hashmail_server.go:487-498 | given out if and only if registered and without a writer; then the caller is the only writer, the timer stops and other streams stay |
| MailboxServer.HashMailServer.ReturnReadStream | hashmail_server.go:293-296 | the return does not block, parks the token and keeps the invariant |
| MailboxServer.HashMailServer.ReturnWriteStream | hashmail_server.go:300-304 | the return does not block, parks the token and keeps the invariant |
| MailboxServer.HashMailServer.TearDownStream | hashmail_server.go:502-540 | the stream is closed once and leaves the registry; an unknown ID changes nothing |
| TokenCodec.RoundTrip | l402/token.go:106-190 | reading a serialised token, whatever follows it, gives the token, for macaroons below 2^32 bytes |
| TokenCodec.StrictPrefixRejected | l402/token.go:148-190 | no strict prefix of a serialised token reads as a token |
| TokenCodec.FileLayout | l402/token.go:106-145 | the place of every field in a token file |
| TokenCodec.DeserializeToken | l402/token.go:148-190 | reading field by field gives the same as the format says |
| TokenCodec.ReadTail | l402/token.go:165-187 | the fixed fields behind the macaroon are read in order or refused |
| TokenStore.StoreRefinesMachine | l402/store.go:170-235 | under every operation, fault and crash the two files make only moves of the one-token machine |
| TokenStore.StoreSucceedsIff | l402/store.go:170-226 | a token is stored if and only if the store is empty or holds its pending form and the write works; otherwise nothing changes but by a faulty write |
| TokenStore.PromotionRemovesPending | l402/store.go:206-216 | promotion removes the pending file if that works, and no other |
| TokenStore.RemoveSucceedsIff | l402/store.go:229-235 | removal works if and only if there is a pending file and it can be removed, and leaves the paid one |
| TokenStore.PaidIsForever | l402/store.go:120-131 | a paid token never changes, whatever is done to the store |
| TokenStore.PendingLeavesOnlyKnown | l402/store.go:170-226 | a pending token becomes the same token paid, or is removed; only a torn write can hide it |
| TokenStore.RefusingStays | l402/store.go:120-131 | a torn file keeps the store refusing until it is removed |
| TokenStore.OpenIsIdempotent | l402/store.go:63-107 | migration of the old names is idempotent, also after a crash between the renames, and forgets no file |
| TokenStore.OpenFindsToken | l402/store.go:63-107 | after opening the current token is the first of paid, old paid, pending and old pending |
| TokenStore.OpenKeepsFiles | l402/store.go:63-107 | each old file takes the free current name, and nothing is overwritten |
| TokenStore.FileStore.constructor | l402/store.go:63-107 | opening a directory migrates old names to free new ones |
| TokenStore.FileStore.CurrentToken | l402/store.go:113-131 | the paid file if it exists, else the pending one, with all fields; a torn file is an error |
| TokenStore.FileStore.WriteFile | l402/store.go:186-216 | what a whole, missing or torn write leaves to be read |
| TokenStore.FileStore.StoreToken | l402/store.go:170-226 | new disk and result for every current token, new token and fault; what was stored is what the current file reads as |
| TokenStore.FileStore.RemovePendingToken | l402/store.go:229-235 | only the pending file goes |
| Payment.ToMsatExact | l402/client_interceptor.go:371-376 | the conversion to millisatoshis is exact if and only if the limit is not negative and times 1000 fits in uint64 |
| Payment.StepKeepsInv | l402/client_interceptor.go:261-315 | every step, crash and answer of lnd keeps the payment invariant |
| Payment.NoDoublePayment | l402/client_interceptor.go:214-315 | over every run at most one payment is not failed for good, and the store has its hash or refuses |
| Payment.PaymentStartsAlone | l402/client_interceptor.go:378-407 | a payment starts only when no other can still succeed and its hash is stored |
| Payment.SpendingIsBounded | l402/client_interceptor.go:371-407 | all successful payments together cost at most maxCost plus maxFee |
| Payment.PaymentIsCollected | l402/client_interceptor.go:261-315 | after any interruption without a torn paid file the next call turns a successful payment into the paid token |
| Payment.RestartAfterCrash | l402/store.go:63-107 | after a crash anywhere the client starts again with the migrated files |
| Payment.PaidIsUsed | l402/client_interceptor.go:306-309 | with a paid token a call neither pays nor tracks |
| Payment.TakenUpIff | l402/client_interceptor.go:371-388 | with an empty store a challenge is taken up if and only if it has no amount or at most 1000 times maxCost millisatoshis |
| Payment.ReadyAfterFailure | l402/client_interceptor.go:264-284 | terminal failure of the pending payment makes room for a new one |
| Payment.AffordableIsPaid | l402/client_interceptor.go:371-417 | an affordable invoice is paid and ends as the paid token |
| Payment.CallPays | l402/client_interceptor.go:261-315 | a whole call, with an empty store or after terminal failure, pays an affordable challenge and leaves its paid token |
| Payment.AwaitConclusion | l402/client_interceptor.go:438-481 | the loop over status updates succeeds or fails on the first update that is not in flight |
| Payment.ClientInterceptor.StorePendingToken | l402/client_interceptor.go:336-388 | goes on if and only if there is a challenge within the limit, the store is empty and the write works; then the pending token is stored |
| Payment.ClientInterceptor.SendPayment | l402/client_interceptor.go:390-417 | a payment is reported as made only when it succeeded and the client was still waiting; lnd's record of it stays either way |
| Payment.ClientInterceptor.StorePaidToken | l402/client_interceptor.go:400-407 | succeeds if and only if the write works and the store is empty or holds the pending token; then the paid token is stored |
| Payment.ClientInterceptor.PayL402Token | l402/client_interceptor.go:336-417 | follows a run of the machine; succeeds if and only if the challenge is within the limit, lnd pays in time and both files get written |
| Payment.ClientInterceptor.TrackPayment | l402/client_interceptor.go:264-297 | promotes the token if and only if tracking ends in success, makes room if and only if it ends in terminal failure and the token can be removed, else leaves the files |
| Payment.ClientInterceptor.HandlePayment | l402/client_interceptor.go:261-315 | follows a run of the machine; in each of the three cases exactly when it succeeds, and always with a paid token |
| Text.SplitAfterJoin | l402/service.go:97-127 | splitting at a separator undoes joining when no part contains it |
| Text.ParseAfterFormat | l402/service.go:140-152 | every 64-bit integer survives formatting and parsing |
| Text.ParseSignAndRange | l402/satisfier.go:132-141 | a plus sign is read over and what exceeds 64 bits is refused |
| Caveats.DecodeAfterEncode | l402/caveat.go:47-58 | a caveat is decoded as it was if and only if its condition has no separator |
| Caveats.EncodeAfterDecode | l402/caveat.go:47-58 | whatever decodes encodes to the same string |
| Caveats.HasCaveat | l402/caveat.go:76-93 | the value of the last decodable caveat with the condition |
| Caveats.LastValueIsLast | l402/caveat.go:76-93 | the value is that of the last caveat with the condition |
| Caveats.NoValueIff | l402/caveat.go:76-93 | it is missing if and only if no caveat has the condition |
| Caveats.BuildTable | l402/caveat.go:104-107 | of two satisfiers with one condition the later one counts |
| Caveats.LaterSatisfierCounts | l402/caveat.go:104-107 | the last satisfier of a condition is the one in the table |
| Caveats.GroupCaveats | l402/caveat.go:108-116 | the groups are the chains of every checkable condition, in order |
| Caveats.CheckChain | l402/caveat.go:118-139 | each caveat against its predecessor and the last by itself |
| Caveats.VerifyCaveats | l402/caveat.go:101-142 | for every order of map iteration: true if and only if every chain holds |
| Caveats.EveryLinkPermits | l402/satisfier.go:12-33 | in an accepted chain every caveat, taken as the last, is accepted |
| Caveats.Attenuation | l402/caveat.go:101-142 | if a list with others added verifies, the list alone verifies |
| Caveats.EachCaveatPermits | l402/caveat.go:101-142 | each caveat of an accepted list, taken alone, is accepted |
| Services.EncodeServicesCaveatValue | l402/service.go:73-95 | the loop over a builder joins the encoded services, or refuses an empty list or name |
| Services.DecodeServicesCaveatValue | l402/service.go:97-127 | the loop decodes all parts or fails |
| Services.DecodeAfterEncodeServices | l402/service.go:73-127 | names and tiers come back from the caveat for all names free of separators |
| Services.NamesMustAvoidSeparators | l402/service.go:73-127 | for every list of named services, names and tiers come back if and only if all names avoid both separators |
| Services.NamesCanSmuggle | l402/service.go:73-127 | a name with separators reads as two services |
| Services.TierIsTruncated | l402/service.go:115-123 | a tier beyond eight bits is read modulo 256 |
| Services.ServicesChainMeans | l402/satisfier.go:36-80 | a chain holds if and only if all lists decode, they only shrink, and the last has the target |
| Services.CapabilitiesChainMeans | l402/satisfier.go:84-121 | a chain holds if and only if the capabilities only shrink and the last has the target |
| Services.WallSecondsExact | l402/satisfier.go:143-144 | when the conversion to time counts without wrap-around |
| Services.TimeoutChainMeans | l402/satisfier.go:129-180 | a chain holds if and only if all times parse, they never grow, and the last is ahead |
| Services.SatisfiersMonotone | l402/satisfier.go:36-180 | all three satisfiers only ever restrict |
| Services.L402Table | mint/mint.go:294-298 | verification checks the services condition and the target's timeout, which never coincide |
| Services.L402Attenuation | mint/mint.go:282-298 | for all raw caveats, targets and times: if a list with any others added verifies, the list alone verifies |
| Services.L402EachCaveatPermits | mint/mint.go:282-298 | each raw caveat of an accepted list, taken alone, permits the target at that time |
| Limiter.LimitsWellFormed | services.go:27-63 | every recorded capability and timeout is about the service it is recorded for |
| Limiter.TimeoutFoundIff | services.go:34-46 | a configured timeout is found at minting if and only if the price asked is the one configured |
| Limiter.CapabilitiesFoundIff | services.go:48-50 | the configured capabilities are found if and only if the price asked is the one configured |
| Limiter.ConstraintsFoundIff | services.go:51-54 | and the configured constraints, if there are any |
| Limiter.ExpiryExact | l402/service.go:140-152 | the expiry is the configured seconds away if and only if their nanoseconds fit in 64 bits |
| Limiter.StaticServiceLimiter.constructor | services.go:27-63 | the loops fill the three maps as the lemmas on capabilities, constraints and timeouts describe |
| Limiter.StaticServiceLimiter.ServiceCapabilities | services.go:67-80 | the recorded capabilities of the services, in order |
| Limiter.StaticServiceLimiter.ServiceConstraints | services.go:84-97 | the recorded constraints of the services, concatenated in order |
| Limiter.StaticServiceLimiter.ServiceTimeouts | services.go:101-114 | the recorded timeouts of the services, in order |
| Identifier.DecodeAfterEncodeIdentifier | l402/identifier.go:79-128 | an identifier is read back whatever follows it |
| Identifier.DecodeAccepts | l402/identifier.go:100-128 | exactly which byte strings are taken for identifiers |
| Identifier.ShortIdentifierIsPadded | l402/identifier.go:100-128 | a cut token ID is filled with zeros, not refused |
| Identifier.ReadIdentifier | l402/identifier.go:100-128 | the sequential reads compute the decoding |
| Mint.AddedCaveatsAreSigned | l402/caveat.go:62-72 | adding caveats appends them and keeps the signature valid |
| Mint.SignatureBindsCaveats | l402/caveat.go:62-72 | without collisions a signature fits one list of caveats only |
| Mint.MintFailsIff | mint/mint.go:210-239 | the caveats can not be made if and only if a service has no name |
| Mint.MintedContents | mint/mint.go:210-239 | the caveats are the services and exactly the limits recorded for one of them, the services first |
| Mint.MintedCaveatsConfine | mint/mint.go:210-239 | minted caveats with any others added never hold for a service that is not listed |
| Mint.MintedNeverWidens | mint/mint.go:256-299 | no extension of a minted L402 verifies for a service it was not minted for |
| Mint.ExtensionOnlyRestricts | mint/mint.go:256-299 | whatever an extended macaroon verifies for, the macaroon itself verifies for |
| Mint.NoServicesNoLimits | mint/mint.go:210-239 | an L402 for no service holds for every target |
| Mint.MintedChains | mint/mint.go:210-239 | the services chain and the timeout chain of a minted L402 are exactly these |
| Mint.RecordedIsUnique | services.go:101-114 | with distinct names a target has at most its own timeout |
| Mint.MintedCaveatsHoldIff | mint/mint.go:282-298 | minted caveats hold for a target if and only if it is listed and its recorded timeout, if any, is ahead |
| Mint.MintedVerifiesIff | mint/mint.go:256-299 | so an unextended L402 with the right preimage verifies exactly there |
| Mint.VerifiesMeans | mint/mint.go:256-299 | the verdict on every macaroon: preimage, signature, services that shrink down to the target, expiries that shrink down to the future |
| Mint.NarrowedVerifiesIff | l402/satisfier.go:36-80 | an L402 narrowed by its holder verifies if and only if the new list is within the old, has the target, and the L402 entitles to it |
| Mint.ShortenedVerifiesIff | l402/satisfier.go:129-180 | with an expiry added by its holder it verifies if and only if that is not later than the recorded one and is ahead |
| Mint.ChallengeVerifiesIff | proxy/service.go:219-222 | a challenge's token with its preimage verifies for its service exactly until the recorded expiry, or for ever when the price asked, fixed or dynamic, is not the configured one, as with a configured zero |
| Mint.ChallengeVerifiesUntil | services.go:41-46 | in numbers: until the configured seconds after the limiter was built |
| Mint.NewIdDecodes | mint/mint.go:182-198 | a new identifier decodes to its payment hash and token ID |
| Mint.MaximumPrice | mint/mint.go:168-178 | the price is the maximum, attained, or zero |
| Mint.Minter.MintL402 | mint/mint.go:109-164 | macaroon and secret store after minting, also when it fails half-way |
| Mint.Minter.VerifyL402 | mint/mint.go:256-299 | accepts if and only if preimage, signature and caveats are right |
| Encodings.HexRoundTrip | l402/header.go:108-112 | hexadecimal text decodes to its bytes |
| Encodings.HexPlaces | l402/header.go:138-142 | two digits for each byte, the high one first |
| Encodings.HexDecodeAccepts | l402/header.go:108-112 | exactly pairs of digits of either case are read |
| Encodings.Base64RoundTrip | l402/header.go:138-142 | base64 (section 4 of RFC 4648) decodes to its bytes and has no colon or line break |
| Encodings.Base64Examples | l402/header.go:138-142 | the examples of section 10 of RFC 4648 |
| Encodings.LooseBitsAreIgnored | l402/header.go:72-76 | unused bits before the padding are not looked at |
| Encodings.LineBreaksAreSkipped | l402/header.go:72-76 | a line break in the text makes no difference |
| Header.FindWhatIsWritten | l402/header.go:29-33 | the expression takes a written value apart where it was put together |
| Header.FoundIsLeftmost | l402/header.go:56-65 | what is found is the leftmost match with the shortest text |
| Header.MatchIsFound | l402/header.go:56-65 | and if there is a match anywhere one is found |
| Header.LastMatch | l402/header.go:56-65 | the loop over the Authorization values leaves the match of the last one |
| Header.FromAfterSet | l402/header.go:45-155 | credentials set on any header are the credentials read from it |
| Header.NormalisationKeepsMeaning | proxy/proxy.go:303-313 | rewriting keeps the credentials and is idempotent |
| Header.DirectorForwards | proxy/proxy.go:292-320 | the backend sees the client's credentials, unless the configuration adds Authorization values |
| Header.DirectorKeepsFields | proxy/proxy.go:292-320 | every other field reaches the backend as it came, with the configured values behind |
| Header.DirectorSetsAuthorization | proxy/proxy.go:292-320 | the exact Authorization values the backend sees |
| Header.Request.SetHeader | l402/header.go:135-155 | both schemes are set in the Authorization field, other fields stay |
| Header.Request.Direct | proxy/proxy.go:292-320 | normalised header with the configured fields appended |
| Header.PaidMacaroonCaveats | l402/token.go:80-89 | the preimage is the last preimage caveat even if there were others |
| Header.PaidMacaroonIsRead | l402/header.go:93-131 | a paid macaroon sent as a hex header, in either field, gives the token's own preimage |
| Challenger.LoadIndicesAreMaxima | challenger/lnd.go:96-151 | no listed invoice with a hash has a larger index |
| Challenger.LoadIndicesAreAttained | challenger/lnd.go:96-151 | each index is zero or that of a listed invoice |
| Challenger.LoadIsLastWord | challenger/lnd.go:111-141 | the load keeps the state of the last relevant invoice of a hash |
| Challenger.LoadedIsListed | challenger/lnd.go:111-141 | every loaded entry comes from the last relevant listed invoice of its hash |
| Challenger.LoadFailsIff | challenger/lnd.go:126-131 | the load fails if and only if a listed hash has the wrong size |
| Challenger.IrrelevantIff | challenger/lnd.go:383-396 | irrelevant if and only if canceled, or open or accepted and past creation plus expiry |
| Challenger.LongExpiryWraps | challenger/lnd.go:388-390 | an expiry beyond 64 bits of nanoseconds makes a new invoice count as expired |
| Challenger.SettledIsLoaded | challenger/lnd.go:383-396 | a settled invoice with no later one of its hash is loaded as settled, expired or not |
| Challenger.PageIsNext | challenger/lnd.go:96-151 | a page starts at the offset and moves it behind its last invoice |
| Challenger.CacheIsLastWord | challenger/lnd.go:244-250 | the cache says what the last update about a hash says |
| Challenger.CacheKeepsLoad | challenger/lnd.go:244-250 | and what the load left where there is none |
| Challenger.EntryHasSource | challenger/lnd.go:232-250 | every update taken into the cache is what a message of the stream says |
| Challenger.MessageIsLogged | challenger/lnd.go:232-250 | and every message with a hash that is reached is taken, in order |
| Challenger.StreamIsLastWord | challenger/lnd.go:244-250 | the last message reached about a hash decides: recorded with its state if and only if relevant |
| Challenger.CacheKeepsStream | challenger/lnd.go:232-250 | a hash that no message is about keeps its state |
| Challenger.SettledIsNeverLost | challenger/lnd.go:175-257 | an invoice loaded as settled, or settled in a message that is reached, is settled in the cache afterwards, if lnd never reports another state of it |
| Challenger.LndChallenger.LoadPage | challenger/lnd.go:110-145 | a page continues the pass over the list |
| Challenger.LndChallenger.LoadNext | challenger/lnd.go:98-151 | one request and its page continue the pass over the list |
| Challenger.LndChallenger.Start | challenger/lnd.go:80-171 | for every batch size: terminates with the cache and indices of one pass over the list |
| Challenger.LndChallenger.ReadInvoiceStream | challenger/lnd.go:175-257 | for every hash the cache ends up with what the last message reached about it says |
| InvoiceWaiters.StepKeepsInv | challenger/lnd.go:303-379 | every step of every goroutine keeps the mutex and waiter invariant |
| InvoiceWaiters.NoLostWakeUp | challenger/lnd.go:342-360 | a sleeping, unsignalled waiter has neither its invoice in the wanted state nor its timeout reached |
| InvoiceWaiters.ResultIsTruthful | challenger/lnd.go:342-378 | success if and only if the cache had the wanted state at the last locked read; otherwise the timeout was reached |
| InvoiceWaiters.TimedOutCanMove | challenger/lnd.go:325-338 | after its timeout a waiter moves on whenever the mutex is free or its own |
| InvoiceWaiters.OthersDoNotDelay | challenger/lnd.go:303-379 | no other step takes a waiter back |
| InvoiceWaiters.TimedOutNeverTurnsBack | challenger/lnd.go:325-361 | in every run, with any other callers and updates, a waiter takes at most five steps of its own after its timeout or quit broadcast, and each brings it nearer to its end |
| InvoiceWaiters.EveryRunFinishes | challenger/lnd.go:303-379 | every run without new calls and updates has bounded length, in any order of steps, and stops only when every waiter has finished |
| InvoiceWaiters.EveryWaiterCanFinish | challenger/lnd.go:303-379 | from every state with the invariant there is such a run to the end of any waiter |
| InvoiceWaiters.VersionsAreReplays | challenger/lnd.go:244-255 | every value of the cache is the replay of a prefix of the updates |
| InvoiceWaiters.SuccessWasObserved | challenger/lnd.go:303-379 | a call succeeds only if lnd reported the wanted state of that hash |
| InvoiceWaiters.SatisfiedCallSucceeds | challenger/lnd.go:342-378 | a waiter whose invoice has the wanted state and keeps it never fails, in any run |
| InvoiceWaiters.ArrivalSucceeds | challenger/lnd.go:303-379 | nor does a call that arrives then, for its own hash and state |
| Auth.StepKeepsInv | mint/mint.go:109-164 | secrets exist only for identifiers made and not revoked |
| Auth.RevokedNeverVerifies | aperturedb/secrets.go:147-171 | once revoked, a macaroon never verifies again, however the mint goes on |
| Auth.UnrevokedKeepsSecret | aperturedb/secrets.go:147-171 | what is not revoked keeps its secret, whatever else is minted and revoked |
| Auth.MintedKeepsVerifying | mint/mint.go:109-164 | a minted L402 verifies exactly for what it entitles to, in every history in which it is not revoked |
| Auth.VerifiedWasMinted | mint/mint.go:256-280 | what verifies was minted here, is not revoked, and its preimage opens the payment hash of its minting |
| Auth.Accept | auth/authenticator.go:40-72 | true if and only if header, mint and challenger agree |
| Auth.AcceptedWasPaid | auth/authenticator.go:40-72 | accepted requests carry an L402 minted here, not revoked, with the preimage of an invoice that was settled in lnd's list at start-up or in a message of its stream |
| Auth.AcceptedWasListed | mint/mint.go:210-299 | and ask for a service the L402 was minted for |
| Auth.PreimageCaveatIsHarmless | l402/token.go:80-89 | a preimage caveat takes nothing away |
| Auth.PaidMacaroonVerifiesIff | l402/token.go:80-89 | a paid macaroon verifies exactly where its base macaroon does |
| Auth.PaidTokenIsAcceptedIff | auth/authenticator.go:40-72 | a minted and paid token sent as a hex header is accepted if and only if it entitles to the service and its invoice is settled |
| Auth.AuthorizedTokenIsAcceptedIff | auth/authenticator.go:40-72 | the same for macaroon and preimage in an Authorization field |
| Transactions.Database.ExecTx | aperturedb/interface.go:163-221 | at most numRetries attempts; success commits exactly one attempt on the data it found, anything else nothing of ours |
| Transactions.ExecutesIsDetermined | aperturedb/interface.go:163-221 | this promise determines the number of attempts, the outcome and the data |
| Transactions.SpoiledIsRetried | aperturedb/interface.go:178-204 | when every attempt meets a serialization failure all numRetries are made |
| Transactions.UnspoiledEnds | aperturedb/interface.go:178-215 | the first attempt without one is the last, and commits if and only if nothing else fails |
| Onion.StoreKeepsAtMostOne | aperturedb/onion.go:88-110 | storing keeps one key at most if and only if no empty key is overlooked |
| Onion.EmptyKeyIsOverlooked | aperturedb/onion.go:88-110 | storing an empty key and then another leaves two |
| Onion.StoredIsTheKey | aperturedb/onion.go:88-110 | storing succeeds exactly when no other key is there, and leaves that key |
| Onion.CallKeepsGood | aperturedb/onion.go:81-114 | however often it is tried and wherever it fails, a call leaves a good table |
| Onion.NeverTwoKeys | aperturedb/onion.go:81-170 | over every run of calls, failures, retries and interference the table never holds two keys |
| Onion.OnionStore.StorePrivateKey | aperturedb/onion.go:81-114 | success leaves exactly the key, failure nothing of ours |
| Onion.OnionStore.DeletePrivateKey | aperturedb/onion.go:154-170 | success leaves the table empty, failure nothing of ours |
| Freebie.KeysAreNetworks | freebie/mem_store.go:19-21 | two addresses share a counter if and only if they are in one /24 network or both are not IPv4 |
| Freebie.NetworkIsThreeBytes | freebie/mem_store.go:8-21 | two IPv4 addresses are in one network if and only if their first three bytes agree |
| Freebie.NetworkOfForms | freebie/mem_store.go:19-21 | both forms of an IPv4 address count as one, and no other address has a network |
| Freebie.CounterIsExact | freebie/mem_store.go:23-39 | a counter is the number of requests from its network up to the limit, so it never wraps |
| Freebie.FirstOnesAreFree | proxy/proxy.go:181-239 | a request without authentication is free if and only if fewer than the limit came from its network before |
| Freebie.GrantedIsBounded | proxy/proxy.go:181-239 | a network gets the limit or as many as it asked for, whichever is less |
| Freebie.MemStore.ServeFreebie | proxy/proxy.go:181-239 | the response depends only on earlier requests of the same network, authentication and price |

## Left out

- MailboxFraming.Copy and MailboxFraming.ReadChunks run one after the other on pipes that hold all Writes; their interleaving, with one Write in flight at a time, is what MailboxRun models.
- MailboxServer: a Request or Return with its status update is one step, and so is a timer firing with its tear-down; finer data races are not modelled. The rate limiter and the RPC handlers around WriteMsg and ReadNextMsg are left out, as are stream authentication checks, which always succeed.
- MailboxRun: a message that ReadNextMsg returned and the RPC then fails to send counts as received.
- TokenStore: the directory listing of AllTokens, and errors of os.Stat other than a missing file.
- Payment: calls are the sequence their lock makes of them; how the two gRPC interceptors repeat a request and attach credentials is left out, as is an RPC to lnd in transit at a crash that lnd accepts afterwards.
- Payment.ClientInterceptor.HandlePayment: the token is the one current at the start of the call; that another process changes the directory meanwhile is not modelled.
- Mint.Minter.MintL402: the challenger's invoice, the random token ID and the secret are parameters; third-party caveats are ignored as the code ignores them.
- Auth.AcceptedWasPaid: the time between the checks is not modelled; an L402 revoked after its verification and before the answer is still accepted.
- InvoiceWaiters: that a goroutine which can move does move at some time is not formalised; InvoiceWaiters.EveryRunFinishes and InvoiceWaiters.TimedOutNeverTurnsBack hold for every order of steps.
- Onion: reading the key back with PrivateKey.
- Challenger: lnd's own handling of the subscription indices, and NewChallenge.
- Header: canonical capitalisation of field names, and service matching by regular expression.
- Transactions.Database.ExecTx: delays between attempts, and the mapping of driver errors; which errors are serialization failures is an input.
- Freebie: concurrent requests, since the counter map has no lock; a request is served before the next one starts.
- aperture.go, config.go, TLS, Tor, metrics, logging, database drivers and migrations, etcd stores, price servers, Lightning Node Connect and the reverse proxy's transport would only add easy members.
