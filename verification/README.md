# Verified model of the relay, the message order and the codecs

This project models four parts of the repository in Dafny 4.11 and proves what they promise.

**The relay.** Servers register a name and wait, clients claim a waiting server, and frames are then piped both ways
until either socket closes. The model keeps the code's own state: the manager's four collections, one record per socket,
two timers per socket, the name table and the sockets' outboxes. The classes `UsernameRegistry`, `ConnectionManager`,
`Network` and `Handler` change that state in place, each method is proved equal to a function on the whole state, and
`RelaySystem` turns those functions into a transition system whose steps are opening, messages, pongs, errors, closing,
close events, timer callbacks, passing time, reclaiming and deleting names. Theorems are about whole runs of it.

Two notions used below:

- A *run* starts with no sockets and any name table. Messages, pongs and errors reach a socket until its one close event.
  Time passes up to the next timer, and no further before that timer's callback has run.
- A run is *disciplined* if every socket has at most one `server_register` or `client_connect` handled in its life. The
  code does not enforce this; the repository's own relay client behaves this way (packages/server/src/cli-setup.ts:150-158).
  `RelayDiscipline` shows what breaks without it; what holds in every run is stated for every run.

**Message order.** Ordering by parent chain (`dag.ts`) is modelled with its one-pass check, its map of children, its
recursive walk over shared variables and its leftover tail, for lists with any ids, orphans, self-parents and cycles.

**Codecs.** UUIDs, offsets in two 32-bit halves read back through double arithmetic, upload chunks, envelopes, UTF-8,
base64 and project ids.

**Text.** The file path pattern with its scan, splitting and linking, and the line filter of the development script.
Timestamps are modelled as far as the registry compares them as text.

One file a module: `usernames`, `username_format`, `registry`, `sockets`, `connections`, `ws_handler`, `relay_system` are
the relay's model and `relay_*`, `conservation` its proofs (`relay_answers`, `relay_ownership`, `relay_provenance`,
`relay_timers`, `relay_telemetry`, `relay_discipline` and `conservation` for every run); `timestamps`, `iso_fields` and
`registry_times` are about the registry's clock. `dag*` is the ordering; `doubles`, `framing_errors`, `uuids`, `offsets`,
`binary_framing`, `wire_formats`, `utf8`, `base64`, `project_id`, `text_encodings` are the codecs; `decimals`, `regex`,
`file_paths`, `path_shapes`, `file_path_detection`, `likely_paths`, `text_segments`, `file_links`, `link_attributes`,
`line_filter` the text.

## What the proofs found

- `needsReorder` takes a parent that is the empty string for no parent, `orderByParentChain` does not
  (packages/shared/src/dag.ts:35 against packages/shared/src/dag.ts:60). So a result can pass the check although a chain
  does not end at a root: `DagResults.BlankParentDisagrees` is an input, `DagResults.OrderedIffConnected` says exactly when.
- Reordering drops items: of several items that share an id with a chain to a root it keeps one.
  `DagResults.PermutationExactly` is the exact condition and `DagResults.DuplicateIsDropped` an input.
- A socket that registers two names and closes leaves the first one waiting for good (`RelayDiscipline.TwoNamesLeak`), and
  sockets that are in two pairs each leave a pair listed for good (`RelayDiscipline.PairLeak`).
  `RelayDiscipline.CloseClearsExactly` and `RelayDiscipline.HeldLiveExactly` are the exact conditions.
- With a pong timeout above the ping interval the record forgets a timer that is still set, and a socket that answered its
  last ping is closed all the same (`RelayDelays.LongTimeoutsAreNotEarned`). With equal delays this takes an order of
  callbacks that are due at the same instant, the tick before the timeout, which the model allows and a runtime that runs
  the older timer first does not have. `RelayDelays.EarnedExactly` is the exact condition on the delays; the defaults, 60
  and 30 seconds, meet it.
- A path that starts with U+FEFF does not survive its project id: the decoder takes the character for a byte order mark.
- On a token that matches the file path pattern the two URL tests of `isLikelyFilePath` never decide anything.
- Timestamps after the year 9999 start with a plus sign and sort before all others, so they would be reclaimed at once;
  years before 0 sort backwards. `Timestamps.TextOrderIsTimeOrder` says exactly which pairs of times are in order.

## Model

| member | source | states |
|---|---|---|
| Registry.UsernameRegistry.constructor | packages/relay/src/registry.ts:23-25 | the registry works on the table it is given |
| Registry.UsernameRegistry.CanRegister | packages/relay/src/registry.ts:33-47 | a valid name may be registered if it is free or already owned by this installation, and only then |
| Registry.UsernameRegistry.Register | packages/relay/src/registry.ts:55-86 | succeeds exactly when `canRegister` holds; a new row, or a new last-seen time in the owner's row, and no other change |
| Registry.UsernameRegistry.UpdateLastSeen | packages/relay/src/registry.ts:92-97 | changes the last-seen time of a known name and nothing else |
| Registry.UsernameRegistry.IsRegistered | packages/relay/src/registry.ts:111-116 | whether the name has a row |
| Registry.UsernameRegistry.ReclaimInactive | packages/relay/src/registry.ts:122-132 | keeps exactly the rows whose last-seen text is not less than the cutoff text, and counts the others |
| Registry.UsernameRegistry.Delete | packages/relay/src/registry.ts:138-143 | removes the name's row, and tells whether there was one |
| UsernameFormat.ValidIsPattern | packages/shared/src/relay-protocol.ts:207-216 | a name is valid exactly if it matches the pattern: one end, 1 to 30 characters, one end |
| Timestamps.NextYear | packages/relay/src/registry.ts:60 | the closed day count of ECMA-262 5.1 section 15.9.1.3 grows by 365 or 366 days, by the leap year rule |
| Timestamps.YearIsUnique | packages/relay/src/registry.ts:60 | the year of a time is the only one whose days include its day |
| Timestamps.OrderOfTexts | packages/relay/src/registry.ts:127-129 | for all valid times: the earlier one has the lesser text if their years are written in order, and otherwise the greater text |
| Timestamps.TextOrderIsTimeOrder | packages/relay/src/registry.ts:127-129 | for all valid times: the order of the texts of section 15.9.1.15 is the order of the times exactly if both years or neither are after 9999 and they are not two different years before 0; different times have different texts |
| Timestamps.LastPlainMoment | packages/relay/src/registry.ts:127-129 | the two neighbouring milliseconds at which the order first fails |
| IsoFields.IsoReads | packages/relay/src/registry.ts:60 | every time's text has the form of section 15.9.1.15, and its fields, read as decimal digits, are in their ranges and mean the time |
| RegistryTimes.ClocksTell | packages/relay/src/registry.ts:127-129 | ISO texts tell uses in the years 0 to 9999 from cutoffs in any year up to 9999 in the order of time, and all valid times by the exact rule |
| RegistryTimes.ReclaimByText | packages/relay/src/registry.ts:122-132 | with any clock whose texts tell uses from cutoffs, reclaiming by text deletes exactly the names last used before the cutoff, and changes no other row |
| RegistryTimes.CallsKeepStamps | packages/relay/src/registry.ts:55-97 | after any calls every row carries the text of the time its name was last seen, so a touched name is never taken for an old one |
| RegistryTimes.ReclaimAfterCalls | packages/relay/src/registry.ts:122-132 | in every history of uses in the years 0 to 9999 and reclaims with cutoffs up to 9999 a name survives a reclaim exactly if it was seen at or after the cutoff |
| RegistryTimes.ReclaimAfterAnyCalls | packages/relay/src/registry.ts:122-132 | in every history of calls at any valid times a reclaim treats a name by the time it was last seen exactly if that year and the cutoff's are written in order |
| RegistryTimes.ExtendedCutoffKeepsAll | packages/relay/src/registry.ts:122-132 | a cutoff after the year 9999 deletes no name last seen in the years 0 to 9999 |
| Sockets.Network.SendTo | packages/relay/src/connections.ts:193-198 | an open socket's outbox grows by the item, with its kind; any other socket drops it without an error |
| Sockets.Network.Close | packages/relay/src/connections.ts:113-117 | an open socket starts closing, and any other stays as it is |
| Connections.ConnectionManager.constructor | packages/relay/src/connections.ts:64-78 | a new manager holds nobody |
| Connections.ConnectionManager.RegisterServer | packages/relay/src/connections.ts:88-136 | the three answers, the row, the new waiting entry and the closing of the one it replaces; the second `username_taken` branch is unreachable |
| Connections.ConnectionManager.ConnectClient | packages/relay/src/connections.ts:145-174 | the three answers; on success the server stops waiting, both sockets get the new pair, the entry is tagged and the name is touched |
| Connections.ConnectionManager.Forward | packages/relay/src/connections.ts:184-199 | the frame goes to the other end of the pair, and nowhere without a pair |
| Connections.ConnectionManager.HandleClose | packages/relay/src/connections.ts:209-244 | the three outcomes; a waiting entry or a whole pair is removed, and the other end starts closing |
| Connections.ConnectionManager.GetWaitingCount | packages/relay/src/connections.ts:275-277 | the number of waiting names |
| Connections.ConnectionManager.GetPairCount | packages/relay/src/connections.ts:282-284 | the number of pairs |
| ConnectionIndex.AddWaitingKeepsIndex | packages/relay/src/connections.ts:109-133 | a registration of a socket the manager does not hold keeps the agreement of the four collections |
| ConnectionIndex.ClaimKeepsIndex | packages/relay/src/connections.ts:157-168 | so does a pairing |
| ConnectionIndex.DropWaitingKeepsIndex | packages/relay/src/connections.ts:212-218 | so does the close of a waiting server |
| ConnectionIndex.DropPairKeepsIndex | packages/relay/src/connections.ts:222-228 | so does the close of a pair |
| Conservation.Conserved | packages/relay/src/connections.ts:88-244 | after any calls whatever: pairs = connects - pair disconnects, registrations = waiting + connects + waiting closes + replacements, and every lookup entry is for an end of a standing pair |
| WsHandler.Handler.constructor | packages/relay/src/ws-handler.ts:32-51 | no records and no timers at first |
| WsHandler.Handler.GetState | packages/relay/src/ws-handler.ts:34-41 | the socket's record, created on first use |
| WsHandler.Handler.SendReply | packages/relay/src/ws-handler.ts:52-59 | a reply is put on the socket if it is open |
| WsHandler.Handler.StartPingInterval | packages/relay/src/ws-handler.ts:61-93 | one new interval, named by the record |
| WsHandler.Handler.StopPingInterval | packages/relay/src/ws-handler.ts:95-104 | both timers that the record names are cleared |
| WsHandler.Handler.HandleRegister | packages/relay/src/ws-handler.ts:170-226 | the whole relay state after a `server_register` |
| WsHandler.Handler.HandleConnect | packages/relay/src/ws-handler.ts:229-279 | the whole relay state after a `client_connect` |
| WsHandler.Handler.HandleMessage | packages/relay/src/ws-handler.ts:120-291 | the whole relay state after a message: forwarded, routed or ignored |
| WsHandler.Handler.HandleClose | packages/relay/src/ws-handler.ts:293-359 | the whole relay state after a close event |
| WsHandler.Handler.HandlePong | packages/relay/src/ws-handler.ts:106-112 | the pong is noted and the pong timer that the record names is cleared |
| WsHandler.Handler.FireInterval | packages/relay/src/ws-handler.ts:63-92 | a tick stops itself on a paired socket, and otherwise arms a pong timer and names it |
| WsHandler.Handler.FireTimeout | packages/relay/src/ws-handler.ts:81-91 | the socket of the timer starts closing |
| RelayAnswers.RegistrationAnswered | packages/relay/src/ws-handler.ts:170-226 | in any run: an invalid name is refused as invalid, one of another installation as taken, with the refusal as the last item and the socket closed; any other is granted: the row, the waiting entry, the predecessor closed, the reply, the report and the first ping one interval away |
| RelayAnswers.PredecessorIsClosed | packages/relay/src/connections.ts:108-117 | in any run whoever waits under a name that is registered anew is no longer open |
| RelayAnswers.RequestAnswered | packages/relay/src/ws-handler.ts:229-280 | in any run: a name without a row is refused as unknown, one under which nobody waits as offline, and the socket closed; otherwise the new pair, the marks, the cleared timers, the reply and the report |
| RelayAnswers.OthersIgnored | packages/relay/src/ws-handler.ts:154-168 | in any run binary frames and other texts from an unpaired socket have no effect |
| RelayAnswers.PairedForwarded | packages/relay/src/ws-handler.ts:148-152 | in any run a paired socket's frame goes to the other end as it is, and nothing else happens |
| RelayAnswers.CloseAnswered | packages/relay/src/ws-handler.ts:293-358 | in any run: what a close event does to the collections, to the other end and to the telemetry, by the name in the record |
| RelayAnswers.TickAnswered | packages/relay/src/ws-handler.ts:61-93 | in any run a ping sets a pong timer, and the next ping is one interval later |
| RelayAnswers.PongAnswered | packages/relay/src/ws-handler.ts:106-112 | in any run a pong is noted and clears the timer that the record names |
| RelayAnswers.TimeoutAnswered | packages/relay/src/ws-handler.ts:81-91 | in any run a pong timeout shuts its socket and touches no other |
| RelayLinks.StepKeepsCoherent | packages/relay/src/ws-handler.ts:114-370 | every disciplined step keeps the agreement of manager, records, timers and the sockets' histories |
| RelayLinks.RunCoherent | packages/relay/src/ws-handler.ts:114-370 | so every state of a disciplined run has it |
| RelayTheorems.IndexAgreement | packages/relay/src/connections.ts:64-174 | in every state of a disciplined run: nobody waits twice, the lookup is a symmetric matching without fixed points covering exactly the pairs, active servers are the waiting ones and the pairs' servers, rightly tagged and counted; `paired` is set exactly for sockets in the lookup or whose partner closed first |
| RelayTheorems.Draining | packages/relay/src/connections.ts:209-244 | in a disciplined run everyone held has its close event still to come, so all four collections are empty once all sockets have closed |
| RelayTheorems.CloseRemovesOwnEntries | packages/relay/src/ws-handler.ts:293-359 | in a disciplined run a close removes the socket's own waiting entry and pair, and exactly those |
| RelayReports.RunStationed | packages/relay/src/connections.ts:108-136 | in any run an open socket that was told that it is registered is waiting or has been paired |
| RelayReports.RegisteredIsServed | packages/relay/src/connections.ts:108-136 | in a disciplined run such a socket is waiting, or in a pair, or its partner's close event has been handled |
| RelayReports.PairCloseReported | packages/relay/src/ws-handler.ts:299-338 | in a disciplined run the close of a pair's server is reported as the server's, and the server as disconnected while paired; that of its client as the client's alone; under the name asked for and the installation of the registration |
| RelayReports.WaitingCloseReported | packages/relay/src/ws-handler.ts:310-323 | in a disciplined run the close of a waiting socket is reported under the name and the installation of its registration |
| RelayReports.StrayCloseUnreported | packages/relay/src/connections.ts:243 | in any run no other close is reported |
| RelayPipe.StepKeepsPiping | packages/relay/src/ws-handler.ts:148-158 | every disciplined step keeps each outbox a prefix of what is due to it |
| RelayTheorems.PairingEvent | packages/relay/src/ws-handler.ts:229-245 | two partners were paired by one request, and their marks count the frames up to it |
| RelayTheorems.PipeRefinement | packages/relay/src/ws-handler.ts:148-158 | a client's outbox is `client_connected` and a server's `server_registered`, followed by a prefix of exactly the frames its own partner sent after the pairing, in order and with their kind; all of them while it is open and the partner has not closed |
| RelayTheorems.ShutStaysFrozen | packages/relay/src/connections.ts:184-199 | in any run the outbox of a socket that is no longer open never changes |
| RelayTheorems.NothingAfterClose | packages/relay/src/connections.ts:221-242 | once either partner's close event is handled neither outbox ever grows |
| RelayKeepalive.StepKeepsAlive | packages/relay/src/ws-handler.ts:61-112 | every disciplined step keeps the agreement of timers, records and ping times |
| RelayTheorems.TimersAreNamed | packages/relay/src/ws-handler.ts:61-104 | at most one pong timer and one interval per socket, named by its record; none for paired or closed sockets; none overdue |
| RelayTheorems.TimeoutIsEarned | packages/relay/src/ws-handler.ts:80-91 | a pong timeout hits only an unpaired socket that was pinged exactly the timeout ago and has not answered that ping |
| RelayTimers.SilenceIsClosed | packages/relay/src/ws-handler.ts:61-93 | in any run, disciplined or not, and with any delays: a registered, unclaimed socket that sends no pong for longer than interval plus timeout is no longer open |
| RelayDelays.LongTimeoutsAreNotEarned | packages/relay/src/ws-handler.ts:80-91 | for every positive interval and every timeout at least as long, a disciplined run in which an open socket is closed although its last ping was answered; for equal delays the tick runs before the timeout due at the same instant |
| RelayDelays.EarnedExactly | packages/relay/src/ws-handler.ts:61-93 | every timeout of every disciplined run is earned exactly if the timeout is shorter than the interval, or no frame registers a name at all |
| RelayOwnership.OwnerStays | packages/relay/src/registry.ts:55-86 | in any run a name stays in the table with its owner, from any state to any later one, exactly if no step between deletes it or reclaims it as outdated |
| RelayOwnership.RunOwned | packages/relay/src/connections.ts:94-133 | in any run whoever waits under a name in the table was granted that name earlier, for the installation that owns it now |
| RelayOwnership.RegistrationOf | packages/relay/src/connections.ts:94-133 | the registration behind such an entry: since then the socket has waited under the name and the name has had that owner |
| RelayOwnership.ClaimsOwner | packages/relay/src/connections.ts:145-173 | in any run a request is answered with a socket that registered the name for the installation that owns it at that moment |
| RelayOwnership.PairsOwnTheName | packages/relay/src/connections.ts:163-168 | in any run every pair that stands was made by a request of its client for a name that its server had registered as its owner |
| RelayOwnership.PartnersOwnTheName | packages/relay/src/connections.ts:145-173 | in any run a socket and its last partner were brought together by a request for a name that the server had registered as its owner |
| RelayProvenance.PipedIsFromPartner | packages/relay/src/connections.ts:184-199 | in any run every piped frame on a socket was sent, as it is, by a socket that an earlier request had paired with it, under a name of which the server was the owner |
| RelayProvenance.NoPartnerNoFrames | packages/relay/src/connections.ts:184-199 | in any run a socket that was never paired, be it refused, replaced or waiting, gets no piped frame |
| RelayDiscipline.CloseClearsExactly | packages/relay/src/connections.ts:209-244 | exactly when a close leaves the socket in none of the four collections, in any state whose lookup entries are ends of standing pairs |
| RelayDiscipline.HeldLiveExactly | packages/relay/src/connections.ts:209-244 | in any run, disciplined or not: the four collections never name a closed socket exactly if every close event finds its socket named only where it looks |
| RelayDiscipline.LookedRightDrains | packages/relay/src/connections.ts:209-244 | such a run, disciplined or not, leaves all four collections empty once all sockets have closed |
| RelayDiscipline.TwoNamesLeak | packages/relay/src/connections.ts:211-219 | a run without the discipline after which all sockets are closed and one still waits |
| RelayDiscipline.PairLeak | packages/relay/src/connections.ts:160-170 | a run without the discipline after which all sockets are closed, nobody waits or is looked up, and one pair is still listed |
| RelayTelemetry.RunAccounted | packages/relay/src/ws-handler.ts:247-257 | in every run, disciplined or not: pairs = reported connects - reported pair disconnects |
| Dag.CheckNeedsReorder | packages/shared/src/dag.ts:32-41 | the one-pass check computes its specification |
| Dag.GroupByParent | packages/shared/src/dag.ts:57-64 | the map holds each parent key's children in list order |
| Dag.ChainWalk.constructor | packages/shared/src/dag.ts:66-68 | nothing visited at first |
| Dag.ChainWalk.Visit | packages/shared/src/dag.ts:70-78 | one visit appends the depth-first walk of the parent's children and marks its ids; it terminates on cycles |
| Dag.AppendUnvisited | packages/shared/src/dag.ts:82-87 | the unvisited items follow in input order |
| Dag.OrderByParentChain | packages/shared/src/dag.ts:53-90 | the code computes the order that the lemmas below are about |
| DagOrder.NeedsReorderMeans | packages/shared/src/dag.ts:26-41 | the check reports a list exactly if some item comes before its parent |
| DagOrder.VisitedIsConnected | packages/shared/src/dag.ts:66-80 | the walk visits exactly the ids that a parent chain connects to a root |
| DagOrder.OrderIsIdempotent | packages/shared/src/dag.ts:53-90 | ordering twice is ordering once, for all lists |
| DagOrder.SiblingsKeepOrder | packages/shared/src/dag.ts:57-78 | with distinct ids the children of every parent, and the roots, keep their input order |
| DagOrder.UnconnectedKeepOrder | packages/shared/src/dag.ts:82-87 | the items that no chain connects to a root keep their input order |
| DagResults.ConnectedFollowParents | packages/shared/src/dag.ts:43-52 | in the result every connected item follows an item with its parent's id |
| DagResults.OrderPassesExactly | packages/shared/src/dag.ts:53-90 | the result passes the check exactly if the list did, or no unconnected item with a non-blank parent comes before all unconnected items with that id (a stray item) |
| DagResults.ConnectedPasses | packages/shared/src/dag.ts:43-52 | if every parent chain ends at a root the result passes the check |
| DagResults.OrderedIffConnected | packages/shared/src/dag.ts:43-52 | for which lists "the result passes the check exactly if every parent chain ends at a root" is true: those whose items with a blank parent are connected, and those that are reordered and leave a stray item |
| DagResults.ReorderedCheck | packages/shared/src/dag.ts:82-87 | a reordered list fails the check exactly if its leftover tail does by itself, whatever the parents are |
| DagResults.BlankParentDisagrees | packages/shared/src/dag.ts:35-60 | a blank parent passes the check and is connected to nothing |
| DagResults.PermutationExactly | packages/shared/src/dag.ts:53-90 | the result is a permutation exactly if nothing was reordered or no connected id occurs twice |
| DagResults.DuplicateIsDropped | packages/shared/src/dag.ts:71-76 | a list of which an item is lost |
| DagNames.NamesDecide | packages/shared/src/dag.ts:20-24 | lists whose items agree on parent, content and name, which is the `uuid`, else the `id`, else blank, are ordered alike |
| DagNames.IdNames | packages/shared/src/dag.ts:20-24 | items that carry only distinct `id`s, whose chains end at a root: the result is a permutation in which each item follows the one its parent names |
| DagNames.UuidNames | packages/shared/src/dag.ts:20-24 | the same for `uuid`s, whether or not the items carry `id`s as well |
| DagDepth.DepthFirst | packages/shared/src/dag.ts:70-80 | in a reordered list only descendants of an item stand between it and its connected children |
| Bytes.SetAt | packages/shared/src/binary-framing.ts:534-540 | writing bytes at a position changes those positions and no other |
| Doubles.RoundIsNearest | packages/shared/src/binary-framing.ts:498 | the rounding used for double sums gives a multiple of the distance of doubles, at most half of it away |
| Doubles.RoundKeepsSafety | packages/shared/src/binary-framing.ts:500-505 | rounding is exact up to the largest safe integer and never comes back below it |
| Doubles.HighWordIsExact | packages/shared/src/binary-framing.ts:498 | scaling a 32-bit word by 2^32 is exact |
| Uuids.ParseUuid | packages/shared/src/binary-framing.ts:387-411 | the buffer loop computes the sixteen bytes, or the error |
| Uuids.UuidFromText | packages/shared/src/binary-framing.ts:387-434 | text to bytes to text gives the lower-case identifier with hyphens in the places of section 4 of RFC 9562 |
| Uuids.UuidFromBytes | packages/shared/src/binary-framing.ts:387-434 | bytes to text to bytes is the identity |
| Offsets.SetUint32 | packages/shared/src/binary-framing.ts:472-474 | the word's four bytes, big-endian, at the position |
| Offsets.EncodeOffset | packages/shared/src/binary-framing.ts:444-477 | the two words are written as specified, or the error |
| Offsets.OffsetWrittenExactly | packages/shared/src/binary-framing.ts:444-477 | exactly the integers from 0 to the largest safe one can be written, and the bytes are their 64-bit value |
| Offsets.OffsetReadExactly | packages/shared/src/binary-framing.ts:486-508 | the check on the rounded sum agrees with the exact value: accepted exactly if the high word is below 2^21, and read exactly |
| Offsets.OffsetRoundTrip | packages/shared/src/binary-framing.ts:444-508 | what is written is read back |
| Offsets.OffsetBytesRoundTrip | packages/shared/src/binary-framing.ts:444-508 | what is read is written back |
| Framing.EncodeUploadChunkPayload | packages/shared/src/binary-framing.ts:607-627 | the buffer with its moving position holds identifier, offset and data, or the first error |
| Framing.EncodeUploadChunkFrame | packages/shared/src/binary-framing.ts:521-543 | the same after the format byte 2 |
| Framing.PayloadRoundTrip | packages/shared/src/binary-framing.ts:576-627 | exactly the chunks with a UUID and a safe offset are encoded, and decoding gives them back |
| Framing.PayloadAccepted | packages/shared/src/binary-framing.ts:576-596 | the accepted payloads, and encoding what was decoded gives the payload back |
| Framing.FrameRoundTrip | packages/shared/src/binary-framing.ts:521-566 | decoding an encoded frame gives offset, data and the canonical identifier |
| Framing.FrameAccepted | packages/shared/src/binary-framing.ts:553-596 | a frame is accepted exactly if it has format byte 2, length at least 25 and a high offset word below 2^21; encoding undoes decoding |
| Framing.CreateBinaryEnvelope | packages/shared/src/binary-framing.ts:262-284 | version, nonce and ciphertext in one buffer, or the error for a nonce of another length |
| Framing.PrependFormatByte | packages/shared/src/binary-framing.ts:294-302 | the format byte before the payload |
| Framing.EnvelopeRoundTrip | packages/shared/src/binary-framing.ts:222-284 | a created envelope is parsed back exactly if it has 42 bytes and the known version, and which error it gives otherwise |
| Framing.ParsedEnvelope | packages/shared/src/binary-framing.ts:222-284 | a parsed envelope is created again from its parts |
| Framing.SealRoundTrip | packages/server/src/crypto/nacl-wrapper.ts:171-261 | with a sealing that opening inverts and that adds 16 bytes, every known format and payload comes back and no payload is too short |
| Framing.ChunkThroughEnvelope | packages/shared/src/binary-framing.ts:576-627 | an upload chunk passes through all three layers unchanged |
| WireFormats.UuidText | packages/shared/src/binary-framing.ts:419-434 | an identifier's text has the two digits of every byte in order, and hyphens after the digits 8, 12, 16 and 20 |
| WireFormats.OffsetBytes | packages/shared/src/binary-framing.ts:444-477 | an offset's bytes are its value, the most significant byte first; exactly the integers from 0 to 2^53 - 1 have any |
| WireFormats.FrameLayout | packages/shared/src/binary-framing.ts:521-543 | a chunk's frame: the byte 2, sixteen bytes, eight bytes, the data |
| WireFormats.EncodingErrors | packages/shared/src/binary-framing.ts:387-466 | a wrong identifier is reported before a wrong offset |
| WireFormats.DecodingErrors | packages/shared/src/binary-framing.ts:553-596 | which error a frame gives that is not accepted |
| WireFormats.FormatBytes | packages/shared/src/binary-framing.ts:72-100 | the formats are 1, 2 and 3, outside and inside an envelope |
| WireFormats.EnvelopeLayout | packages/shared/src/binary-framing.ts:262-284 | a sealed message: the byte 1, 24 bytes of nonce, and the ciphertext of format and payload |
| WireFormats.EnvelopeAccepted | packages/shared/src/binary-framing.ts:222-250 | an envelope has at least 42 bytes and begins with 1, and which error anything else gives |
| TextEncodings.CharacterOctets | packages/shared/src/projectId.ts:39 | how many octets a character has and where its bits are, by section 3 of RFC 3629 |
| TextEncodings.AlphabetHolds | packages/shared/src/projectId.ts:41 | the digits are those of table 1 of RFC 4648 |
| TextEncodings.TestVectors | packages/shared/src/projectId.ts:41 | three test vectors of section 10 of RFC 4648 |
| TextEncodings.Identifiers | packages/shared/src/projectId.ts:37-47 | three paths and their identifiers, with the two digits that differ in a URL |
| TextEncodings.BrokenSequences | packages/shared/src/projectId.ts:66 | broken octet sequences become U+FFFD, once for every longest broken beginning |
| Utf8.DecodeEncode | packages/shared/src/projectId.ts:39-66 | decoding UTF-8 (section 3 of RFC 3629) gives back every well-formed text |
| Utf8.TextRoundTrip | packages/shared/src/projectId.ts:39-66 | the text decoder loses one leading U+FEFF and nothing else |
| Base64.GroupIsNumber | packages/shared/src/projectId.ts:41 | four digits are the 24 bits of three bytes, as section 4 of RFC 4648 has it |
| Base64.DigitsRoundTrip | packages/shared/src/projectId.ts:41-61 | the bytes of the digits are the bytes |
| Base64.UnpaddedPadded | packages/shared/src/projectId.ts:57-61 | the decoder takes off exactly the padding that was put on |
| ProjectId.DecodeProjectId | packages/shared/src/projectId.ts:53-67 | the padding loop and the byte loop compute the specified decoding |
| ProjectId.PaddingRestored | packages/shared/src/projectId.ts:42-59 | the padding loop restores exactly what was stripped |
| ProjectId.ProjectIdRoundTrip | packages/shared/src/projectId.ts:37-67 | every path comes back exactly if it does not start with U+FEFF, and otherwise without that character |
| ProjectId.IdIsWellFormed | packages/shared/src/projectId.ts:21-47 | the id passes `isUrlProjectId` exactly for non-empty paths |
| ProjectId.IdIsInjective | packages/shared/src/projectId.ts:37-47 | different paths have different ids |
| ProjectId.WellFormedIsDecoded | packages/shared/src/projectId.ts:21-61 | of the texts that pass `isUrlProjectId` exactly those whose length leaves a remainder of one fail to decode |
| PathPatterns.ExtensionMeans | packages/shared/src/filePathDetection.ts:262-267 | the extension is what follows the last dot: letters and digits only, at least one |
| PathPatterns.PartsJoin | packages/shared/src/filePathDetection.ts:255-257 | splitting at slashes loses nothing and leaves no slash in a part |
| PathShapes.PathTokenMeans | packages/shared/src/filePathDetection.ts:222-223 | the pattern between its lookarounds, in terms of slash-separated parts and a line suffix |
| PathShapes.DottedPathMeans | packages/shared/src/filePathDetection.ts:222-223 | the first alternative: an optional lead, directories and a name with an extension |
| PathShapes.RootedPathMeans | packages/shared/src/filePathDetection.ts:222-223 | the second alternative: an absolute path with at least one directory |
| PathShapes.UrlTestsAreRedundant | packages/shared/src/filePathDetection.ts:242-250 | no matching token looks like a URL or contains `://` |
| FilePathDetection.CheckedIsLinked | packages/shared/src/filePathDetection.ts:252-320 | for any text, the checked path is the linked path exactly if there is no line suffix, or text without line terminators before it |
| FilePathDetection.DetectedIsChecked | packages/shared/src/filePathDetection.ts:337-343 | on every match the checked path is the linked path |
| FilePathDetection.LocationParsed | packages/shared/src/filePathDetection.ts:306-320 | a path, a line and a column printed together are parsed back |
| FilePathDetection.MatchIsToken | packages/shared/src/filePathDetection.ts:222-223 | a match is a maximal stretch without white space, so its start determines its end |
| FilePathDetection.TokensExactly | packages/shared/src/filePathDetection.ts:222-223 | the token list holds exactly the maximal stretches without white space |
| FilePathDetection.Exec | packages/shared/src/filePathDetection.ts:332-336 | the leftmost match at or after a position, or none |
| FilePathDetection.DetectFilePaths | packages/shared/src/filePathDetection.ts:328-356 | the exec loop ends, and lists in order exactly the tokens that match the pattern and are plausible, with their indices |
| LikelyPaths.ListedExactly | packages/shared/src/filePathDetection.ts:242-300 | a token is listed exactly if it matches the pattern, is not shaped like an e-mail address, and what comes before its first colon ends in a known file name or a known extension, or has a common directory |
| LikelyPaths.ListedReads | packages/shared/src/filePathDetection.ts:304-352 | a listed path is recorded with its text and position, what comes before its first colon, and the numbers that the digits after it denote |
| LikelyPaths.ListsHold | packages/shared/src/filePathDetection.ts:39-205 | facts about the three lists of extensions, file names and directories |
| LikelyPaths.ClassesHold | packages/shared/src/filePathDetection.ts:222-223 | the characters of the pattern's classes |
| LikelyPaths.SourceFileIsFound | packages/shared/src/filePathDetection.ts:262-267 | `main.ts` is found in a sentence |
| LikelyPaths.VersionIsNotFound | packages/shared/src/filePathDetection.ts:262-267 | `1.5` is not |
| FilePathDetection.NumberDenotes | packages/shared/src/filePathDetection.ts:315-316 | a line or column number is the one that its decimal digits denote |
| TextSegments.PathsAreLaid | packages/shared/src/filePathDetection.ts:345-352 | detected paths are slices of the text at their indices, in order, and never touch |
| TextSegments.SplitTextWithFilePaths | packages/shared/src/filePathDetection.ts:364-401 | the loop computes the specified segments |
| TextSegments.SplitAt | packages/shared/src/filePathDetection.ts:371-400 | so does its loop on any detected paths inside the text |
| TextSegments.NoTextLost | packages/shared/src/filePathDetection.ts:364-401 | the segments together are the text |
| TextSegments.PathsAreSeparated | packages/shared/src/filePathDetection.ts:374-398 | path segments are the detected paths in order, and paths and non-empty texts take turns |
| FileLinks.LinksLoseNoText | packages/shared/src/filePathDetection.ts:411-439 | for any escaping that goes by character and leaves no angle bracket, erasing the tags gives the escaped text |
| FileLinks.EscapeHtmlConcat | packages/server/src/augments/augment-generator.ts:251-258 | the server's chain of replacements goes by character |
| FileLinks.EscapeHtmlFree | packages/server/src/augments/augment-generator.ts:251-258 | it leaves no angle bracket and no quote |
| FileLinks.ServerLinksLoseNoText | packages/shared/src/filePathDetection.ts:411-439 | so with it no text is lost |
| LinkAttributes.LinksCarry | packages/shared/src/filePathDetection.ts:425-437 | a reader of the markup finds one anchor for every detected path, in order, with the escaped path, and a line and a column exactly if the path has them, in digits that denote them |
| LinkAttributes.ServerLinksCarry | packages/shared/src/filePathDetection.ts:425-437 | so with the server's escaping |
| LinkAttributes.EscapedCharacter | packages/server/src/augments/augment-generator.ts:251-258 | the five characters that the server replaces, and by what |
| LineFilter.Forwarder.constructor | scripts/dev.js:35-37 | nothing buffered at first |
| LineFilter.Forwarder.OnData | scripts/dev.js:39-50 | what a chunk adds to the output and leaves in the buffer |
| LineFilter.Forwarder.OnEnd | scripts/dev.js:52-56 | an unsuppressed, non-empty last part is written without a newline |
| LineFilter.SplitIsTrimmedCut | scripts/dev.js:42-43 | the lines are the pieces before the newlines, without a carriage return at their end |
| LineFilter.SplitAppend | scripts/dev.js:40-43 | more input leaves complete lines alone and continues the partial one, also between CR and LF |
| LineFilter.ChunksDoNotMatter | scripts/dev.js:35-57 | for every division into chunks the output is that of the whole stream at once |
| LineFilter.OutputIsKeptLines | scripts/dev.js:35-57 | in whatever chunks lines and a last partial line arrive, the output is the unsuppressed lines, each with a newline, and the partial line unless it is suppressed |
| LineFilter.EveryStream | scripts/dev.js:42 | every stream is one of such lines and a last partial line |

## Left out

- HTTP endpoints, the socket upgrade, logging, telemetry files, SQLite: input and output. The table is a map, telemetry a list of events.
- JSON reading and the message type guards: the handler is proved for every function from bytes to routing messages.
- Clocks: a registration's three readings of the clock are one; the cutoff of a reclaim is a parameter, so local-time arithmetic is not modelled.
- Ping frames, close codes and close reasons are not part of an outbox, and telemetry carries no metadata.
- RelayTimers.SilenceIsClosed: assumes that a timer's callback runs exactly when it is due; a late event loop adds its delay.
- RelayTheorems.TimeoutIsEarned: for disciplined runs and a timeout shorter than the interval; `RelayDelays.EarnedExactly` shows that these delays are the only ones. For equal delays the failing run has the tick first when both callbacks are due.
- RelayTheorems.IndexAgreement: for disciplined runs, as explained above; `RelayDiscipline` and `Conservation` say what holds without.
- Weak references: a record that nothing can reach any more is kept in the model.
- The `getActiveServerSummary` counters, username listings and debug accessors of the manager, `get`, `list` and `count` of the registry: easy members.
- Strings are sequences of Unicode scalar values. Lengths and indices count characters where JavaScript counts UTF-16 units, and lone surrogates are not modelled; project ids are promised for well-formed paths only.
- Negative zero as an offset reads back as zero.
- Line and column numbers are exact integers; `Number.parseInt` rounds beyond 2^53.
- Regular expressions are sets of strings. The order in which a matcher tries alternatives is not modelled; `FilePathDetection.MatchIsToken` shows that it cannot matter here.
- Which lines the development script suppresses is a parameter; multi-byte characters split across chunks are not modelled, since the filter is stated over characters.
- NaCl, SRP and gzip: an abstract sealing with an inverse stands for the first, the others are not modelled; neither are the JSON frames and the compressed frames, which only add a format byte.
- `DirProjectId`, the assertion helpers and spreading very long byte arrays into one call.
- packages/server/src/subscriptions.ts, port rebinding, caches, configuration, model names, React components, the service worker and build scripts.
