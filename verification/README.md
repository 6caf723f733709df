# Protocols of the battle, lobby and login servers

A verification of the protocols in this repository: the reliable UDP of battles, the GGPO relay, the TLS 1.0
dialect of the login server, live streams, stream framing, matchmaking, relay provisioning and ranking, and the
lobby's message codec. Operations that change fields are classes with those fields; what their loops and map
updates compute is stated by functions on values, and the promises over all runs are lemmas about these.

| file | what it models |
|---|---|
| `Wrappers.dfy`, `Bytes.dfy` | optional values; bytes, fixed-width integers, xor and and, big and little endian |
| `BattleBuffer.dfy` | `BattleBuffer`, its 4096-slot ring against the log of all pushes, and `MessageFilter` |
| `ReliableLink.dfy` | two ends over a network that loses, repeats and reorders packets: safety and draining |
| `BattleRoom.dfy` | `UDPPeer` and `Room`: the server between two such links |
| `TwoHop.dfy`, `Draining.dfy`, `RoomSteps.dfy` | a whole battle, client to server to client; that everything arrives; the room's methods as its steps |
| `RelayState.dfy`, `RelaySafety.dfy`, `RelayRouting.dfy`, `Relay.dfy` | the relay as a state machine, what holds over its runs, where packets go, and the class that implements it |
| `TlsPrf.dfy`, `TlsRecords.dfy`, `TlsHandshake.dfy`, `TlsBytes.dfy`, `TlsConn.dfy` | pseudorandom function, record layer, both handshakes against each other, what others see of them, and the class `tlsConn` |
| `SpectatorFanout.dfy`, `Spectators.dfy` | live streams: every interleaving as a state machine, and the registry's methods |
| `Framing.dfy` | `FinScanner` and the read loop of the TCP peer against one parser |
| `Matchmaking.dfy` | the entry list of a lobby and who starts |
| `RelayRegions.dfy`, `Provisioning.dfy`, `Ranking.dfy` | when relays are needed, started, shut down and offered |
| `MessageCodec.dfy`, `EncryptedStrings.dfy`, `KeyInBits.dfy` | message framing, encrypted strings, and their key in 8-bit arithmetic |

Time, random values and whether a room is found are parameters. A loop over a map takes its keys in an arbitrary
order, so what is proved holds for every order. Cryptographic functions are parameters of which only this is
assumed: HMAC results have the length of the hash; decryption undoes encryption for the certificate's key.

Results that go beyond or against what comments in the code say:

- `BattleBuffer` keeps at most 4096 messages but does not check: `GetSendData` is right exactly while the
  outstanding messages fit (`BattleBuffers.WindowFromRingExactly`).
- `begin` can move backwards when packets overtake each other (`ReliableLink.BeginMovesBackwards`); safety rests
  on an invariant over all packets under way.
- `writeRecord` sends only the first 2^14 bytes of a handshake flight, so a long certificate chain makes the
  handshake fail (`TlsHandshake.HandshakesAgreeExactly`).
- `Deserialize` adds header and body size in 16 bits, so bodies above 65523 bytes are not read back
  (`MessageCodec.MessageRoundTrip`, `MessageCodec.LongBodyPanics`).
- Both loops for encrypted strings store byte j at j mod 256. Strings of 257 bytes and more do not come back but
  for an exactly described few (`EncryptedStrings.StringRoundTrip`, `EncryptedStrings.LongStringIsLost`), and
  inputs that no client sends are accepted (`EncryptedStrings.AcceptedWithoutClient`).
- `StartBattleUsers` counts in 16 bits: more than two a side are picked when more than 65536 entries are for one
  side (`Matchmaking.PickedCanStart`). `Entry` lists a user again with every call, so one user can be picked twice
  (`Matchmaking.TwoEnterTwice`, `Matchmaking.PickedAreDifferentUsers`).
- How a stream is split into reads matters to `FinScanner` only once framing is lost (`Framing.ScannerExactly`,
  `Framing.ScannerSplitOnceLost`), and to `readLoop` only where a read is exactly the fin frame
  (`Framing.ReadLoopExactly`, `Framing.ReadLoopSplitOfFin`).

## Model

| member | source | states |
|---|---|---|
| `BattleBuffers.BattleBuffer.constructor` | pkg/proto/battlebuf.go:20-28 | an empty log, `begin` and `end` 1, `ack` 0 |
| `BattleBuffers.BattleBuffer.PushBattleMessage` | pkg/proto/battlebuf.go:42-48 | the message is appended to the log of everything pushed, and the ring again holds the latest message of each slot |
| `BattleBuffers.BattleBuffer.GetSendData` | pkg/proto/battlebuf.go:50-67 | the slots sent are those of numbers `begin` to `min(end, begin + 50) - 1` of the log, in the contiguous and in the wrapped branch, with the last number and the stored `ack` |
| `BattleBuffers.BattleBuffer.ApplySeqAck` | pkg/proto/battlebuf.go:69-74 | `begin` becomes `ack + 1` in 32 bits and `ack` becomes `seq`, whatever they were; log and ring stay |
| `BattleBuffers.SlotHoldsLatest` | pkg/proto/battlebuf.go:42-48 | the slot of number k + 1 holds message k + 1 or, where the ring was overrun, the last later one with the same remainder mod 4096 |
| `BattleBuffers.WindowFromRing` | pkg/proto/battlebuf.go:50-67 | with at most 4096 messages from `begin` on, the slots sent are exactly messages `begin` to `min(end, begin + 50) - 1` of the log, none missing |
| `BattleBuffers.WindowFromRingExactly` | pkg/proto/battlebuf.go:50-67 | without that bound, for pairwise different messages: the slots sent are those messages if and only if at most 4096 are outstanding and `begin + 50` stays below 2^32 |
| `BattleBuffers.WrappedWindowIsTooLong` | pkg/proto/battlebuf.go:50-56 | why numbers must stay below 2^32 - 51: where `begin + 50` wraps around, 50 slots are sent, more than there are outstanding messages |
| `BattleBuffers.MessageFilter.constructor` | pkg/proto/battlebuf.go:82-91 | the counters of the accepted users start at 0, and generated numbers at 1 |
| `BattleBuffers.MessageFilter.GenerateMessage` | pkg/proto/battlebuf.go:93-102 | messages are numbered consecutively in 32 bits |
| `BattleBuffers.MessageFilter.Filter` | pkg/proto/battlebuf.go:104-116 | passes a known user's message if its counter is 0 or one less, counts it then, and changes nothing else |
| `BattleBuffers.PassedAreConsecutive` | pkg/proto/battlebuf.go:104-116 | for every sequence of messages, whatever their numbers and order: the messages of a user that pass are numbered consecutively, the first with the number after the counter unless that was 0 |
| `BattleBuffers.FilterAllAppend` | pkg/proto/battlebuf.go:104-116 | filtering message by message is filtering the whole sequence |
| `ReliableLink.LinkKeepsInv` | pkg/proto/battlebuf.go:42-116 | the global invariant over all packets ever sent (each starts at most one past what the receiver filtered; no acknowledgement stored or under way exceeds it) is kept by every push, send, delivery (late, repeated, in any order) and filter step |
| `ReliableLink.RunKeepsInv` | pkg/proto/battlebuf.go:42-116 | so by every run |
| `ReliableLink.DeliveredIsPrefix` | pkg/proto/battlebuf.go:42-116 | safety of every run over a network that loses, repeats and reorders: what each end has passed is, in order and once each, the accepted messages among the first so many pushed at the other end |
| `ReliableLink.RepeatedMessageRejected` | pkg/proto/battlebuf.go:104-116 | a message that was filtered before never passes again |
| `ReliableLink.NextMessageCounted` | pkg/proto/battlebuf.go:104-116 | the next message of the log passes if and only if its user is accepted |
| `ReliableLink.RoundTrip` | pkg/battle/udp_peer.go:85-100 | a lossless round trip is possible in every reachable quiet state and moves `begin` over the whole window sent |
| `ReliableLink.RoundTrips` | pkg/battle/udp_peer.go:85-100 | any number of them one after the other |
| `ReliableLink.DrainedAfter` | pkg/battle/udp_peer.go:85-100 | without new messages, ceil(outstanding / 50) lossless round trips acknowledge and deliver everything pushed |
| `ReliableLink.FinishedIsFilterAll` | pkg/battle/udp_peer.go:144-148 | reading a packet message by message is the loop of `OnReceive` |
| `ReliableLink.AcknowledgedWasFiltered` | pkg/battle/udp_peer.go:140-155 | in every run, both directions, also while a packet is being read: what an end passed is the accepted part of the first so many messages of the other; the other's `begin` and the first message of every packet under way are at most one past what will have been filtered after that packet, and no acknowledgement exceeds it |
| `ReliableLink.BeginFallsExactly` | pkg/proto/battlebuf.go:69-74 | a step lowers `begin` if and only if it receives a packet whose acknowledgement plus 1 is below it |
| `ReliableLink.BeginMovesBackwards` | pkg/proto/battlebuf.go:69-74 | that does happen: a run, and one more late packet that lowers it |
| `BattleRooms.UDPPeer.constructor` | pkg/battle/udp_peer.go:33-42 | a peer starts with an empty buffer, its own user's filter and nothing read |
| `BattleRooms.UDPPeer.OnReceive` | pkg/battle/udp_peer.go:140-155 | applies the acknowledgement, and appends to what is to be forwarded exactly what the filter passes of the packet; for a peer that is the server's end of a link, that is receiving the packet and filtering it to the end |
| `BattleRooms.UDPPeer.Flush` | pkg/battle/udp_peer.go:85-100 | a peer that is such an end sends that end's packet |
| `BattleRooms.UDPPeer.AddSendMessage` | pkg/battle/udp_peer.go:165-171 | the message is appended to the peer's log |
| `BattleRooms.UDPPeer.ServeReading` | pkg/battle/udp_peer.go:101-135 | the buffers are swapped; the result is true if and only if what was read holds a message with body 04 F0 00 00, and exactly the messages before the first such one, or all, go to everyone else |
| `BattleRooms.BeforeFinIs` | pkg/battle/logic.go:140-149 | the messages before a battle end frame are the longest beginning without a body 04 F0 00 00 |
| `BattleRooms.Room.constructor` | pkg/battle/room.go:18-20 | an empty room |
| `BattleRooms.Room.SendMessage` | pkg/battle/room.go:22-40 | every member but the one at the sender's position gets the message at the end of its log; nobody loses or gets anything else |
| `BattleRooms.Room.Forward` | pkg/battle/udp_peer.go:107-134 | after the loop every other member's log grew by the same messages in the same order |
| `BattleRooms.Room.Clear` | pkg/battle/room.go:42-49 | the room is empty |
| `BattleRooms.Room.Join` | pkg/battle/room.go:51-57 | the peer gets the next position, no position moves |
| `BattleRooms.Room.Leave` | pkg/battle/room.go:59-79 | the place is vacated; when that was the last one taken, the places are cleared |
| `BattleRooms.EndFrame` | pkg/battle/logic.go:140-149 | a body is taken for the battle end frame if and only if it is 04 F0 00 00, the frame that the readers of TCP streams take for it |
| `TwoHop.NextKeepsInv` | pkg/battle/room.go:22-79 | every step of a battle (network, client, join, forward, stop, leave, the delayed clear) keeps the invariant of both hops and of every pair of players |
| `TwoHop.RunBattleKeepsInv` | pkg/battle/room.go:22-79 | so does every run |
| `TwoHop.DeliveredEndToEnd` | pkg/battle/room.go:22-57 | end to end over every run: what B's filter passed of A's messages is, in order and once each, a prefix of those of A pushed into B's buffer, and these are consecutive messages A generated, although the buffer interleaves everyone |
| `TwoHop.GenerateKeeps` | src/zproxy/main.go:488-496 | a client's next message, numbered by its filter and pushed into its buffer, keeps the invariant of both hops |
| `TwoHop.NetworkKeeps` | src/zproxy/main.go:470-484 | so does every packet sent, received or filtered on either hop, at the client or the server |
| `TwoHop.OnlyListedUsers` | pkg/proto/battlebuf.go:104-116 | a client never sees a message of a user not in its list |
| `TwoHop.LeaveKeeps` | pkg/battle/room.go:59-79 | leaving keeps the invariant although the room is cleared only later, when others may have joined |
| `TwoHop.JoinKeeps` | pkg/battle/logic.go:109-130 | joining in the middle of a battle keeps it |
| `TwoHop.ForwardKeeps` | pkg/battle/room.go:22-40 | forwarding one message to everyone else keeps it for every pair of players |
| `Draining.UpDrained` | pkg/battle/udp_peer.go:85-155 | in every state of a battle, round trips drain a player's connection upwards: the server has passed everything the client generated |
| `Draining.DownDrained` | pkg/battle/udp_peer.go:85-155 | and downwards: the client's filter has got everything the server pushed |
| `Draining.EverythingArrives` | pkg/battle/udp_peer.go:85-155 | over both hops: in every state that keeps the invariant, without new messages, ceil(outstanding / 50) lossless round trips up, the server's loop and as many down make B's filter pass all of A that was in B's buffer or not taken yet |
| `Draining.AllIsHeard` | pkg/battle/room.go:22-40 | over every run in which B stays in the room, exactly what A's loop takes is appended, in order, to what B's buffer has of A |
| `Draining.ArrivesSince` | pkg/battle/udp_peer.go:85-155 | so after any run since B was in the room with A, such round trips make B's filter pass everything A's loop had not taken then and all A generated since, behind what B's buffer had of A then |
| `Draining.NothingHeardBefore` | pkg/battle/room.go:51-57 | which is nothing when B joins |
| `Draining.DueIsTheRest` | pkg/battle/room.go:22-40 | what is due is the end of what A generated, none missing from where B's buffer started |
| `RoomSteps.SendMessageIsForward` | pkg/battle/room.go:22-40 | what `SendMessage` does to the buffers of a room that shows a battle is the step that forwards the player's next message |
| `RoomSteps.ForwardIsRun` | pkg/battle/udp_peer.go:107-134 | what the loop of `Serve` does over n messages is a run of n such steps |
| `RoomSteps.JoinIsStep` | pkg/battle/room.go:51-57 | `Join` is the step that joins, with the same place |
| `RoomSteps.LeaveIsSteps` | pkg/battle/room.go:59-79 | `Leave` is the step that leaves, followed by the one that clears if and only if every place is empty |
| `RelayStates.DetachKeeps` | pkg/lobby/relay.go:62-68 | unbinding an address keeps both maps inverse, and the address is in neither |
| `RelayStates.RebindKeeps` | pkg/lobby/relay.go:272-284 | moving an address to a slot (giving up the slot's old one, taking it from another) keeps them inverse |
| `RelayStates.PingKeeps` | pkg/lobby/relay.go:254-294 | every ping keeps the invariant |
| `RelayStates.GgpoKeeps` | pkg/lobby/relay.go:298-323 | every game packet keeps it |
| `RelayStates.KeepKeeps` | pkg/lobby/relay.go:199-209 | removing sessions with the bindings into them keeps it |
| `RelayStates.DoKeeps` | pkg/lobby/relay.go:141-323 | every operation of the relay keeps it |
| `RelaySafety.BindingsAreInverse` | pkg/lobby/relay.go:62-323 | in every reachable state an address leads to slot k of session id if and only if that session is registered and its slot k holds the address in its family |
| `RelaySafety.ActivePathIsBound` | pkg/lobby/relay.go:285-312 | in every reachable state `active` is unset or one of the player's own bound addresses, and `playing` implies it is set |
| `RelaySafety.ForwardedWithinSession` | pkg/lobby/relay.go:298-323 | a forwarded packet goes to an address bound to the named, different player of the sender's own session |
| `RelaySafety.StrangersAreIgnored` | pkg/lobby/relay.go:307-310 | game packets from unbound addresses change and send nothing |
| `RelaySafety.PathKeptUnlessDisturbed` | pkg/lobby/relay.go:254-323 | the path of a player who sends game packets from an address is kept by a step if and only if the step is none of: a ping that rebinds that family, one that takes the address for another slot, a game packet of the player from elsewhere, the session's end |
| `RelaySafety.PathKeptOverRun` | pkg/lobby/relay.go:254-323 | so it is kept over every run without such a step |
| `RelaySafety.BoundAddressesAreAuthentic` | pkg/lobby/relay.go:254-284 | in every reachable state each bound address has sent a ping for its slot with the session's current token |
| `RelaySafety.NewBindingsArePinged` | pkg/lobby/relay.go:265-282 | a binding that a step adds was asked for by that very ping, and no step changes another one |
| `RelaySafety.ExpiryIsARestriction` | pkg/lobby/relay.go:211-220 | after expiry the sessions are the old ones that are not stale, and the bindings the old ones restricted to them |
| `RelaySafety.RelayRestoresPacket` | pkg/lobby/relay.go:318-322 | a GGPO packet wrapped for the relay comes out as it was |
| `RelayRouting.PacketsAre` | pkg/lobby/relay.go:239-250 | which bytes make a packet a ping or a game packet to relay |
| `RelayRouting.PingIsAnswered` | pkg/lobby/relay.go:254-294 | a ping is accepted if it names one of the four slots of a session with that session's token: then it comes back to its sender with type 2 and otherwise unchanged, the sender is bound to that slot, and the session was used then |
| `RelayRouting.OtherPingsAreIgnored` | pkg/lobby/relay.go:254-270 | no other ping is answered or changes anything |
| `RelayRouting.SessionStarts` | pkg/lobby/relay_control.go:171-183 | a session that is new or has a new token starts then, with no address bound to it; with its token it stays as it is |
| `RelayRouting.KeptWhileUsed` | pkg/lobby/relay.go:211-220 | a session is kept until 2 minutes after its last use, but not for more than 3 hours |
| `RelayRouting.PathMoves` | pkg/lobby/relay.go:254-323 | what every step makes of a player's path: pings of the player move it until game packets do, and after that if they replace its address; a ping from it for another slot and the session's end take it away; nothing else does anything |
| `RelayRouting.RouteIsPath` | pkg/lobby/relay.go:254-323 | so in every run a player's path is where those rules put it |
| `RelayRouting.GoesToThePath` | pkg/lobby/relay.go:298-323 | a game packet of a bound player for another slot of the session goes to that player's path, with its type restored and the relay's bytes 0, or is dropped if and only if there is none; the sender's path is where it came from |
| `RelayRouting.NothingElseIsSent` | pkg/lobby/relay.go:239-323 | nothing is sent but answers to accepted pings and such packets |
| `RelayRouting.RoutedByEvents` | pkg/lobby/relay.go:254-323 | over every run a packet for a player goes where that player's pings and game packets said last |
| `RelayRouting.RoutedWhilePlaying` | pkg/lobby/relay.go:254-323 | packets go to the address a player plays from over every run that does not disturb it |
| `RelayRouting.LastPingIsPath` | pkg/lobby/relay.go:285-290 | in every run, before a player plays, the path is an address if and only if that sent the player's last ping and nothing moved it since |
| `RelayRouting.NoPathExactly` | pkg/lobby/relay.go:285-315 | a player has no path if and only if there are neither game packets nor such a ping |
| `Relays.Relay.constructor` | pkg/lobby/relay.go:83-89 | an empty relay |
| `Relays.Relay.HandlePacket` | pkg/lobby/relay.go:239-250 | state, destination and rewritten packet are those of the specification, for every packet |
| `Relays.Relay.HandlePing` | pkg/lobby/relay.go:254-294 | the ping branch; its reply and effect are `RelayRouting.PingIsAnswered` |
| `Relays.Relay.Bind` | pkg/lobby/relay.go:272-284 | the rebinding: two maps written step by step are the specified pair |
| `Relays.Relay.GiveUp` | pkg/lobby/relay.go:274-277 | the slot's old address is gone from both maps |
| `Relays.Relay.Take` | pkg/lobby/relay.go:278-282 | the address moves here from whichever slot had it |
| `Relays.Relay.HandleGgpo` | pkg/lobby/relay.go:298-323 | the game packet branch, with the packet rewritten in place; where it goes is `RelayRouting.GoesToThePath` |
| `Relays.Relay.Restore` | pkg/lobby/relay.go:320-321 | type restored, relay header zeroed |
| `Relays.Relay.Forward` | pkg/lobby/relay.go:307-318 | the sender's path and the destination |
| `Relays.Relay.SessionToken` | pkg/lobby/relay.go:141-154 | the same id gives the same token while the session lives |
| `Relays.Relay.SetSessionToken` | pkg/lobby/relay_control.go:171-183 | another token ends the old session with its bindings; the same one changes nothing |
| `Relays.Relay.RemoveSession` | pkg/lobby/relay.go:199-209 | exactly the session and the bindings into it are gone |
| `Relays.Relay.RemoveStaleSessions` | pkg/lobby/relay.go:211-220 | for every order of the map, exactly the stale sessions are removed |
| `Relays.SessionAddresses` | pkg/lobby/relay.go:200-206 | the addresses in a session's slots are exactly those bound to it, so deleting these is enough |
| `TlsPrf.PHash` | pkg/dnas/tls10.go:66-77 | P_hash of section 5 of RFC 2246 cut to a length |
| `TlsPrf.PHashIsAnyPrefix` | pkg/dnas/tls10.go:66-77 | the cut does not depend on how many HMAC blocks were computed |
| `TlsPrf.PHashPrefixes` | pkg/dnas/tls10.go:66-77 | a longer output begins with a shorter one |
| `TlsPrf.FillPHash` | pkg/dnas/tls10.go:66-77 | the loop of `prfHash` fills the whole buffer with P_hash, for any HMAC of fixed length |
| `TlsPrf.HalvesOfSecret` | pkg/dnas/tls10.go:80-84 | the halves have equal length and share the middle byte of an odd secret |
| `TlsPrf.Prf10` | pkg/dnas/tls10.go:80-90 | P_MD5 of the first half xor P_SHA-1 of the second (section 5 of RFC 2246) |
| `TlsRecords.CryptTwice` | pkg/dnas/tls10.go:105-107 | decrypting at the same key stream position undoes encrypting |
| `TlsRecords.ReadBack` | pkg/dnas/tls10.go:92-140 | reading a record with the writer's state gives type and content back, leaves what follows, and ends in the writer's next state |
| `TlsRecords.ReadAhead` | pkg/dnas/tls10.go:92-116 | a record is read the same whatever follows it |
| `TlsRecords.StreamRoundTrip` | pkg/dnas/tls10.go:284-309 | any interleaving of Writes and Reads of any sizes succeeds; what was read is a prefix of what was written, all of it once nothing is under way, and then both key stream positions and record counts are equal (section 6.2.3.1 of RFC 2246) |
| `TlsRecords.FragmentsAreBounded` | pkg/dnas/tls10.go:118-140 | Write cuts data into fragments of 1 to 2^14 bytes whose contents are the data (section 6.2.1 of RFC 2246) |
| `TlsRecords.ContentAppends` | pkg/dnas/tls10.go:284-302 | the content of records behind records is the concatenation |
| `TlsRecords.ReadAdvances` | pkg/dnas/tls10.go:284-302 | as long as not everything written was read, a Read with room returns at least one more byte of it |
| `TlsRecords.EverythingIsRead` | pkg/dnas/tls10.go:284-309 | after any Writes and Reads, finitely many Reads return everything written |
| `TlsHandshake.ClientHelloParses` | pkg/dnas/tls10.go:173-203 | the client's SSLv2 hello (appendix E.1 of RFC 2246) is parsed by the server into its suites and challenge |
| `TlsHandshake.HelloAccepted` | pkg/dnas/tls10.go:173-233 | the server answers it with its flight and both derive the same client random |
| `TlsHandshake.HandshakesAgree` | pkg/dnas/client.go:22-113 | run against each other both handshakes succeed; the transcript each side has at the client's Finished is the same on both, so is that at the server's, which is the first with the client's Finished; and each side writes with exactly the state the other reads with (sections 6.3 and 7.4.9 of RFC 2246) |
| `TlsHandshake.CutFlightFails` | pkg/dnas/client.go:38-71 | a flight longer than a record is cut, and the client then fails |
| `TlsHandshake.HandshakesAgreeExactly` | pkg/dnas/tls10.go:118-140 | with a matching certificate the handshakes succeed if and only if the server's flight has at most 2^14 bytes |
| `TlsHandshake.ConnectionCarriesData` | pkg/dnas/tls10.go:284-309 | after the handshake any Writes and Reads in either direction go through |
| `TlsBytes.FirstTerms` | pkg/dnas/tls10.go:66-77 | the first two terms of P_hash (section 5 of RFC 2246) |
| `TlsBytes.PrfAt` | pkg/dnas/tls10.go:80-90 | every byte of the PRF: MD5 over the first half of the secret xor SHA-1 over the second, both over label and seed |
| `TlsBytes.KeyBlockParts` | pkg/dnas/tls10.go:252-260 | for both hashes: the two MAC keys of the hash's length and the two keys of 16 bytes, client's first, are in this order the PRF of master secret, "key expansion", server random and client random (section 6.3 of RFC 2246) |
| `TlsBytes.FinishedIs` | pkg/dnas/tls10.go:168-171 | a Finished carries 12 bytes of the PRF of the master secret, "client finished" or "server finished", and the MD5 and SHA-1 of the transcript (section 7.4.9 of RFC 2246) |
| `TlsBytes.HandshakeKeys` | pkg/dnas/client.go:85-108 | after the handshake the client writes with the first MAC key and the first key of the standard key block, the server with the second ones, each after one record of 32 bytes |
| `TlsBytes.MacCovers` | pkg/dnas/tls10.go:45-55 | the MAC of a record is over its count in 8 bytes, type, version 3.1, length and content (section 6.2.3.1 of RFC 2246) |
| `TlsBytes.RecordIs` | pkg/dnas/tls10.go:118-140 | a record is type, version, length, and content and MAC under the key stream from where the last one ended |
| `TlsBytes.RecordMovesOn` | pkg/dnas/tls10.go:126-130 | the next one continues the key stream and the count |
| `TlsBytes.MessageIs` | pkg/dnas/tls10.go:142-145 | a handshake message is its type, its length in 3 bytes and its body |
| `TlsBytes.HelloBytes` | pkg/dnas/client.go:22-36 | the client's hello byte by byte |
| `TlsBytes.HelloIsRead` | pkg/dnas/tls10.go:173-197 | every hello with a challenge of at most 32 bytes is read, whatever version and session id: its suites and its challenge |
| `TlsBytes.OfferedExactly` | pkg/dnas/tls10.go:198-203 | a suite is offered if and only if three bytes at a multiple of 3 say so and the first is 0 |
| `TlsBytes.SuitePreferred` | pkg/dnas/tls10.go:204-211 | RC4-MD5 is chosen if it is offered, else RC4-SHA, else none |
| `TlsBytes.ServerHelloBytes` | pkg/dnas/tls10.go:217-219 | the server's hello byte by byte |
| `TlsBytes.ServerHelloIsRead` | pkg/dnas/client.go:38-48 | the client reads a hello with any session id, and refuses other suites |
| `TlsBytes.CertListIsRead` | pkg/dnas/tls10.go:220-225 | the certificate list is read back, for any number and lengths of certificates |
| `TlsBytes.FlightIs` | pkg/dnas/tls10.go:226-230 | the flight is the three messages, the list behind its length |
| `TlsBytes.KeyExchangeIs` | pkg/dnas/client.go:80-81 | the key exchange: the encrypted secret behind its length |
| `TlsBytes.PremasterIs` | pkg/dnas/tls10.go:243-251 | the secret is found with or without its length before it, and a random one stands for one of another size |
| `TlsBytes.MessageAcrossRecords` | pkg/dnas/tls10.go:147-166 | a message cut into two records anywhere is read as one |
| `TlsConns.TlsConn.ReceiveRecord` | pkg/dnas/tls10.go:92-116 | the in-place reader is the specified record reader, errors included |
| `TlsConns.TlsConn.SendRecord` | pkg/dnas/tls10.go:118-140 | the loop over fragments is the specified writer; anything but application data is cut |
| `TlsConns.TlsConn.ReceiveHandshake` | pkg/dnas/tls10.go:148-166 | the message reader with its buffer and transcript |
| `TlsConns.TlsConn.Write` | pkg/dnas/tls10.go:304-309 | all is written as records |
| `TlsConns.TlsConn.AcceptHello` | pkg/dnas/tls10.go:173-233 | the server up to its flight |
| `TlsConns.TlsConn.CollectSuites` | pkg/dnas/tls10.go:198-203 | the suites offered are exactly those whose first byte is 0 |
| `TlsConns.TlsConn.ComputeFinished` | pkg/dnas/tls10.go:168-171 | verify data over the transcript so far |
| `TlsConns.TlsConn.ComputeKeys` | pkg/dnas/tls10.go:252-260 | the master secret, and the key block whose parts are those of `TlsBytes.KeyBlockParts` (section 6.3 of RFC 2246) |
| `TlsConns.TlsConn.Finish` | pkg/dnas/tls10.go:235-281 | the server behind its flight |
| `TlsConns.TlsConn.StartHandshake` | pkg/dnas/client.go:22-36 | the client's hello |
| `TlsConns.TlsConn.AnswerFlight` | pkg/dnas/client.go:38-98 | the client from the flight to its Finished |
| `TlsConns.TlsConn.CheckFinished` | pkg/dnas/client.go:99-113 | the client accepts exactly the right Finished |
| `TlsConns.TlsConn.Read` | pkg/dnas/tls10.go:284-302 | returns buffered content or that of the next application data record, and keeps the rest; an alert before any content is the end of the stream, anything else an error |
| `TlsConns.TlsConn.DecryptPremaster` | pkg/dnas/tls10.go:243-251 | a decryption error ends the handshake; a random premaster stands in when there is no message of 48 bytes inside |
| `SpectatorFanout.NextKeepsInv` | pkg/lobby/spectator.go:84-261 | every step of registry, uploads and the writer keeps counters, streams and views right |
| `SpectatorFanout.StreamsAreExact` | pkg/lobby/spectator.go:118-179 | for every interleaving of uploads, partial writes and ticks: what was written to a spectator is its header and then the upload from the first byte to `pos`, also for late joiners; one dropped as finished has the whole ended upload |
| `SpectatorFanout.CountersAreExact` | pkg/lobby/spectator.go:181-261 | for every interleaving `nwatchers` is the number of spectators picked and not dropped and the sum of the battles' `watchers`, at most 4096, at most 512 a battle |
| `SpectatorFanout.UploadsOnlyGrow` | pkg/lobby/spectator.go:201-233 | uploads only grow and an ended one never changes |
| `SpectatorFanout.Limits` | pkg/lobby/spectator.go:190-254 | uploads up to 32 MiB, 512 spectators a battle and 4096 in all, ten minutes after an upload or without one |
| `SpectatorFanout.UploadStartsExactly` | pkg/lobby/spectator.go:201-214 | an upload starts if and only if one is asked for with the battle's code and session |
| `SpectatorFanout.LifeOfABattle` | pkg/lobby/spectator.go:84-233 | a battle that is opened, uploaded in two parts and ended: what a spectator is shown, and until when it is listed |
| `Spectators.LiveWatcher.Send` | pkg/lobby/spectator.go:154-179 | for every behaviour of the connection, stream, progress and number of writes afterwards are those of `Sending`, and false is returned if and only if the last write failed other than by its deadline |
| `Spectators.SendingIsExact` | pkg/lobby/spectator.go:154-179 | sending continues the stream without gap, writes nothing if and only if there is nothing to send and at most twice, has sent all if no write failed, and notes progress if and only if something was sent |
| `Spectators.SendingIsRun` | pkg/lobby/spectator.go:154-179 | its writes are a run of the state machine for that watcher |
| `Spectators.TurnIsRun` | pkg/lobby/spectator.go:139-146 | so is a whole turn: the writes and, unless the watcher is kept, a drop for a reason that holds: its last write broke the connection, no progress for more than 30 seconds, or all of an ended upload sent |
| `Spectators.SpectatorRegistry.StartUpload` | pkg/lobby/spectator.go:201-214 | the battle is given out for upload once, with the two error statuses otherwise |
| `Spectators.SpectatorRegistry.Add` | pkg/lobby/spectator.go:217-225 | appends if the result has at most 32 MiB |
| `Spectators.SpectatorRegistry.EndUpload` | pkg/lobby/spectator.go:227-233 | the upload is done |
| `Spectators.SpectatorRegistry.Pick` | pkg/lobby/spectator.go:236-254 | counts the spectator for the battle asked for if there is one and both limits allow it; 404 if and only if there is none, 503 if and only if the one asked for, or a newest one, is full or the registry is, and then nothing changes |
| `Spectators.SpectatorRegistry.Unpick` | pkg/lobby/spectator.go:256-261 | undoes the count |
| `Spectators.SpectatorRegistry.FindNewest` | pkg/lobby/spectator.go:265-276 | for every order of the map a candidate that no candidate beats, or null exactly if there is none |
| `Spectators.SpectatorRegistry.Drop` | pkg/lobby/spectator.go:181-187 | closes and uncounts |
| `Spectators.SpectatorRegistry.Tick` | pkg/lobby/spectator.go:190-199 | exactly the expired battles are removed |
| `Spectators.SpectatorRegistry.ServeAll` | pkg/lobby/spectator.go:139-146 | each watcher has one turn as its connection behaves; those not dropped are moved to the front of the same array in order, and every counter fell by exactly the dropped ones |
| `Spectators.SpectatorRegistry.Deliver` | pkg/lobby/spectator.go:118-151 | every watcher has exactly one turn, with the battle as it was at the beginning; a watcher is kept if and only if its connection lives, an ended upload is not all sent, and it made progress within 30 seconds; the in-place compaction keeps exactly these, as a filtered rotation, and clears the rest |
| `Spectators.RotatedIsSplit` | pkg/lobby/spectator.go:134-138 | the rotation exchanges two pieces, so it has the same elements |
| `Spectators.SelectedAndOthers` | pkg/lobby/spectator.go:133-146 | kept and dropped together are all, nobody lost or duplicated |
| `Spectators.SpectatorRegistry.Open` | pkg/lobby/spectator.go:84-93 | idempotent; a new battle is empty, its session converted to 32 signed bits |
| `Spectators.SameSession` | pkg/lobby/spectator.go:338-345 | an upload is of a battle's session if and only if the two agree in 32 bits, given as signed or unsigned |
| `Spectators.KeptExactly` | pkg/lobby/spectator.go:139-146 | a watcher is kept after its turn if and only if its last write did not fail other than by its deadline, the upload is running or some of it is unsent, and something was written in the last 30 seconds; otherwise its connection is closed |
| `Spectators.SpectatorRegistry.NewestExactly` | pkg/lobby/spectator.go:265-276 | the newest battle is a running one if there is one, and of these, or else of all, one opened last; with skip a running one that is not in it |
| `Framing.FramesAreUnique` | pkg/battle/tcp_peer.go:105-121 | there is no other cut |
| `Framing.FinScanner.constructor` | pkg/proto/fin.go:13-17 | the zero scanner |
| `Framing.FinScanner.Scan` | pkg/proto/fin.go:20-54 | one read: a fin is reported if and only if the cut of partial frame and data has the frame 04 F0 00 00, or, without framing, if the read is that frame; the new partial frame is the rest of the cut |
| `Framing.TakeFrames` | pkg/battle/tcp_peer.go:104-121 | the inner loop returns the whole frames joined and the rest, which together are its input |
| `Framing.FramesAreRight` | pkg/battle/tcp_peer.go:105-121 | the cut of a stream into frames: frames and rest are the stream, and the rest holds no whole frame |
| `Framing.FramesContinue` | pkg/proto/fin.go:31-52 | cutting can stop anywhere and continue with what was left |
| `Framing.TCPReader.OnRead` | pkg/battle/tcp_peer.go:73-128 | one round of the loop: joins if there is a room for the session bytes, stops at a fin read or a zero size, or sends exactly the whole frames in one message, numbered consecutively, and keeps the rest |
| `Framing.ScansOn` | pkg/proto/fin.go:20-54 | from any partial frame on, for any reads: what the scanner reports and holds |
| `Framing.ScannerExactly` | pkg/proto/fin.go:20-54 | for any split of any bytes into reads: a fin is reported if and only if the stream behind the join has the frame 04 F0 00 00 at a boundary before framing is lost, or a later read is exactly that frame; while framing holds only the first counts, and the partial frame is the stream's |
| `Framing.ScannerSplit` | pkg/proto/fin.go:6-12 | so while framing holds two splits of the same bytes give the same fin and partial frame, reads that are the fin frame included |
| `Framing.ScannerSplitOnceLost` | pkg/proto/fin.go:26-29 | once framing is lost the split does matter: the four fin bytes are a fin in one read and not in two |
| `Framing.LoopsOn` | pkg/battle/tcp_peer.go:73-128 | from any partial frame on, for any reads: when the loop still runs, what it sent and what it holds |
| `Framing.ReadLoopExactly` | pkg/battle/tcp_peer.go:73-128 | for any split of any bytes into reads: the loop still runs if and only if no read was exactly the fin frame, no frame had size 0 and the room was found; then it sent exactly the whole frames of the stream behind the join and holds the rest |
| `Framing.ReadLoopSplit` | pkg/battle/tcp_peer.go:73-128 | so without a read that is exactly the fin frame two splits of the same bytes give the same result |
| `Framing.ReadLoopSplitOfFin` | pkg/battle/tcp_peer.go:83-85 | with one the split matters in every state: the read ends the loop, the same bytes in two reads only if they make a frame of size 0 |
| `Framing.ReadersAgree` | pkg/battle/tcp_peer.go:73-128 | while the loop runs both hold the same partial frame, and the scanner has reported a fin if and only if the loop has sent the fin frame as one of its frames |
| `Framing.ThreeFrames` | pkg/proto/fin.go:31-52 | a stream cut into frames, one of them holding the fin frame's bytes; a frame of size 0 ends the framing |
| `Framing.JoinOf22` | pkg/battle/tcp_peer.go:90-104 | the join takes 22 bytes, of which the last ten say the room; the scanner looks for a fin behind 22 bytes only |
| `Matchmaking.Lobby.Enter` | pkg/lobby/model/lobby.go:33-35 | the user is added |
| `Matchmaking.Lobby.Exit` | pkg/lobby/model/lobby.go:37-48 | the user and the first entry are removed, only if the user was there |
| `Matchmaking.RemoveFirstRemovesOne` | pkg/lobby/model/lobby.go:41-46 | one occurrence less and nothing else |
| `Matchmaking.RemovedIsGone` | pkg/lobby/model/lobby.go:53-58 | from a list that names nobody twice the id is gone and everyone else stays |
| `Matchmaking.Lobby.StartGroup` | pkg/lobby/model/lobby.go:98-125 | the group whose start condition is met with the fewest entries, or, if no group can start, the first present entry's |
| `Matchmaking.ChosenIsUnique` | pkg/lobby/model/lobby.go:96-98 | that group is unique |
| `Matchmaking.CanStartExactly` | pkg/lobby/model/lobby.go:81-84 | a battle can start if and only if some group can with everyone who entered |
| `Matchmaking.Lobby.CanBattleStart` | pkg/lobby/model/lobby.go:81-84 | so answers exactly that |
| `Matchmaking.Lobby.StartBattleUsers` | pkg/lobby/model/lobby.go:128-151 | the users picked from the group that starts |
| `Matchmaking.PickedAreFirst` | pkg/lobby/model/lobby.go:128-151 | they are in the order of the list, and an entry is picked if and only if it is of the group and its side's 16-bit counter was below 2 |
| `Matchmaking.PickedCanStart` | pkg/lobby/model/lobby.go:128-151 | they alone can start if and only if the whole group can, and are at most two a side if and only if at most 65536 entered for that side (the counters wrap around) |
| `Matchmaking.BattleCanStart` | pkg/lobby/model/lobby.go:86-151 | when a battle can start, the picked players are all of that group, listed nobody twice if the list does not, and their own side counts satisfy `canStart` |
| `Matchmaking.Lobby.Entry` | pkg/lobby/model/lobby.go:50-62 | the side is set; the id is appended, also if it is listed already, or its first occurrence removed |
| `Matchmaking.PickedAreDifferentUsers` | pkg/lobby/model/lobby.go:128-151 | for every list: the picked players are different users if and only if no user has two entries that are each among the first two of some 65536 for a side (the counters wrap around) |
| `Matchmaking.EnteredTwiceExactly` | pkg/lobby/model/lobby.go:128-151 | with at most 65536 entries a side, that is if the second entry of a side is by the user of the first |
| `Matchmaking.TwoEnterTwice` | pkg/lobby/model/lobby.go:50-62 | two players who enter twice each are a battle of two against two |
| `Matchmaking.Lobby.EntrantsHaveOneSide` | pkg/lobby/model/lobby.go:128-151 | a user has one side and fingerprint however often listed |
| `Matchmaking.LobbyRules` | pkg/lobby/model/lobby.go:86-94 | lobby 2 is one against one, in 3 one player is enough, the others are two against two |
| `RelayRegions.BestRelayRegion` | pkg/lobby/relay_provision.go:104-116 | for every order of the map the same region: least latency, then name |
| `RelayRegions.BestIsUnique` | pkg/lobby/relay_provision.go:111-113 | there is only one best region |
| `RelayRegions.LessIsTotal` | pkg/lobby/relay_provision.go:111-113 | the order of names decides every tie |
| `RelayRegions.RelayNeeded` | pkg/lobby/relay_provision.go:83-102 | for every order of the map: needed if and only if four relay-capable users are online and two of them are from different areas |
| `RelayRegions.MixedStep` | pkg/lobby/relay_provision.go:95-99 | comparing with the first area only is comparing every two |
| `RelayRegions.LessExactly` | pkg/lobby/relay_provision.go:111-113 | the first character that differs decides, and a prefix comes first |
| `RelayRegions.DecimalOfShown` | pkg/lobby/relay_provision.go:106-110 | decimal digits are read as the number they were written from |
| `RelayRegions.AtoiReads` | pkg/lobby/relay_provision.go:106-110 | a sign and digits are read as that number if it has 64 bits |
| `RelayRegions.AtoiRejects` | pkg/lobby/relay_provision.go:106-110 | anything with another character is not a number |
| `RelayRegions.LatencyIs` | pkg/lobby/relay_regions.go:58-64 | the latency to a region is what the player says in digits, none if that is missing, not a number or not positive |
| `RelayRegions.BestExactly` | pkg/lobby/relay_provision.go:104-116 | the best region: no known latency is shorter, and of the regions as near none comes first |
| `RelayRegions.NeededExactly` | pkg/lobby/relay_provision.go:83-102 | needed if and only if four players or more say `relay_server` 1 and two of them are nearest to regions of different areas |
| `Provisioning.Relays.RegisterRelay` | pkg/lobby/relay_regions.go:40-44 | replaces the relay with that address |
| `Provisioning.Relays.UnregisterRelay` | pkg/lobby/relay_regions.go:46-50 | removes it |
| `Provisioning.Relays.UnregisterRelayIf` | pkg/lobby/relay_control.go:163-169 | removes the relay only if no other one replaced it |
| `Provisioning.Relays.SetActiveSessions` | pkg/lobby/relay_control.go:156-158 | only the sessions of that relay change |
| `Provisioning.Relays.FindRunning` | pkg/lobby/relay_provision.go:123-128 | the regions with a relay |
| `Provisioning.Relays.NoteAndStart` | pkg/lobby/relay_provision.go:131-143 | for a list of regions with repetitions: the times noted and the regions started, each once |
| `Provisioning.Relays.ShutDownIdle` | pkg/lobby/relay_provision.go:147-155 | for every order of the map, exactly the idle relays are shut down, each once |
| `Provisioning.Relays.UpdateRelays` | pkg/lobby/relay_provision.go:118-156 | one tick is the specified step, starts exactly the specified regions and shuts down exactly the specified relays |
| `Provisioning.DoKeepsInv` | pkg/lobby/relay_provision.go:118-156 | every event keeps what the runs rest on |
| `Provisioning.RunIsSafe` | pkg/lobby/relay_provision.go:118-156 | every run with non-decreasing time: starts of a region are 10 minutes apart; a relay is shut down at most once per registration, only without sessions and in a managed region, after 30 minutes without an update that found relays needed |
| `Provisioning.UpdateSpacesStarts` | pkg/lobby/relay_provision.go:138-142 | the spacing of starts |
| `Provisioning.UpdateStopsOnce` | pkg/lobby/relay_provision.go:149-154 | one shutdown per registration |
| `Provisioning.UpdateStopsWhenIdle` | pkg/lobby/relay_provision.go:148-153 | the idle time before a shutdown |
| `Provisioning.EventsExactly` | pkg/lobby/relay_regions.go:40-50 | registering, removing and reporting change exactly the relay meant |
| `Provisioning.UpdateIsExact` | pkg/lobby/relay_provision.go:118-156 | an update starts exactly the regions and shuts down exactly the relays for which that is due |
| `Provisioning.RunIsExact` | pkg/lobby/relay_provision.go:118-156 | over every run: a region's relay is started if and only if relays are needed, none is registered there and none was started there in the last 10 minutes; a relay is shut down if and only if it can be, has no sessions, and since the update that first gave a reason and since the last one that found relays needed 30 minutes have passed |
| `Ranking.WorstRtt` | pkg/lobby/relay_regions.go:72-82 | the greatest relayed round trip over all pairs of players, in 64 bits, at least 0 |
| `Ranking.PairsOfMultiset` | pkg/lobby/relay_regions.go:73-74 | the pairs are those of the multiset of players |
| `Ranking.WorstIgnoresOrder` | pkg/lobby/relay_regions.go:72-82 | so the order of the players does not matter |
| `Ranking.SortSlice` | pkg/lobby/relay_regions.go:86-91 | the same relays in strictly increasing order of round trip, then address |
| `Ranking.SortedIsUnique` | pkg/lobby/relay_regions.go:86-91 | there is only one such list |
| `Ranking.RankingIsCanonical` | pkg/lobby/relay_regions.go:52-56 | for every order of the map and of the players the same ranking |
| `Ranking.OfferedAre` | pkg/lobby/relay_regions.go:92-102 | the best four at most; the lobby's own relay is last, and offered if and only if it is set up and fewer than four others are registered |
| `Ranking.BattleRelays` | pkg/lobby/relay_regions.go:57-103 | the list offered is that of a ranking |
| `Ranking.ViaIsSum` | pkg/lobby/relay_regions.go:72-80 | two players with known latencies are as far apart as their sum, others 999 ms |
| `Ranking.BestFirst` | pkg/lobby/relay_regions.go:86-91 | the shorter worst round trip comes first, of equal ones the smaller address |
| `MessageCodec.OutMessage.Serialize` | pkg/lobby/message/message.go:80-91 | the big-endian header with the body's size in 16 bits, then the body |
| `MessageCodec.MessageRoundTrip` | pkg/lobby/message/message.go:93-113 | a serialized message is read back with all fields and its length, whatever follows, if and only if its body has at most 65523 bytes |
| `MessageCodec.LongBodyPanics` | pkg/lobby/message/message.go:107-112 | bodies of 65524 to 65535 bytes make the slice end before it starts |
| `MessageCodec.PartIsIncomplete` | pkg/lobby/message/message.go:94-109 | part of a message is never taken for one |
| `MessageCodec.StreamRoundTrip` | pkg/lobby/message/message.go:80-113 | any concatenation of serialized messages is read back exactly, and an incomplete last one is left |
| `MessageCodec.Layout` | pkg/lobby/message/message.go:80-91 | where each field is and that numbers are big-endian |
| `MessageCodec.AnswerBytes` | pkg/lobby/message/message.go:80-91 | the bytes of one answer |
| `EncryptedStrings.EncryptString` | pkg/lobby/flow_test.go:71-87 | the client's encoder: size, checksum of the plaintext, and its loop's bytes under the key of `KeyInBits.KeyIsTheSources` |
| `EncryptedStrings.Encipher` | pkg/lobby/flow_test.go:74-82 | that loop stores byte j at j mod 256, so of more than 256 bytes the later ones are stored over the first and the rest stays 0 |
| `EncryptedStrings.DecryptInPlace` | pkg/lobby/message/message.go:238-246 | the reader's loop stores in the same places, in place, and sums all bytes it computes in 16 bits |
| `EncryptedStrings.ShortIsCrypt` | pkg/lobby/message/message.go:242-246 | up to 256 bytes both loops combine every byte with that of the key |
| `EncryptedStrings.MessageBodyReader.Read16` | pkg/lobby/message/message.go:197-201 | 0 when two bytes are not there |
| `EncryptedStrings.MessageBodyReader.ReadEncryptedString` | pkg/lobby/message/message.go:219-250 | the string's bytes or nothing, for every input, and what stays unread, under the key of `KeyInBits.KeyIsTheSources` |
| `EncryptedStrings.ChecksumIsSum` | pkg/lobby/message/message.go:245-247 | the checksum is the sum mod 2^16 |
| `EncryptedStrings.LongComesBack` | pkg/lobby/message/message.go:242-246 | more than 256 bytes come back from both loops if and only if they are 0 from byte 256 on and are the key's where they are stored over |
| `EncryptedStrings.StringRoundTrip` | pkg/lobby/message/message.go:219-250 | for every key and plaintext: decoding inverts the client's encoder if and only if it has 1 to 256 bytes, or up to 65533 that are 0 from byte 256 on, are the key's where they are stored over, and for which the key bytes computed twice have the same sum mod 2^16 |
| `EncryptedStrings.LongStringIsLost` | pkg/lobby/flow_test.go:78-81 | with every key, 257 ones do not come back |
| `EncryptedStrings.DecryptedWasEncrypted` | pkg/lobby/message/message.go:238-250 | what is accepted is what the encoder makes of the result if and only if it has at most 256 bytes or meets the same condition |
| `EncryptedStrings.AcceptedWithoutClient` | pkg/lobby/message/message.go:238-250 | with every key, 257 bytes that no plaintext is encoded to are accepted |
| `EncryptedStrings.EmptyString` | pkg/lobby/message/message.go:223-226 | an empty string leaves its checksum unread |
| `EncryptedStrings.LetterA` | pkg/lobby/flow_test.go:71-87 | "A" in message number 1 is encoded as 00 03 00 41 35 and read back |
| `KeyInBits.KeyIsTheSources` | pkg/lobby/message/message.go:239-244 | for every message number and position the key byte is the source's expression in 8-bit arithmetic over its two tables |

## Left out

- Sockets, goroutines, tickers, deadlines and logging: each handler is an atomic step with time as a parameter.
- ReliableLink.DeliveredIsPrefix: assumes 32-bit numbers do not wrap (fewer than 2^32 - 51 messages) and that no more than 4096 messages are outstanding when sending; `BattleBuffers.WindowFromRingExactly` and `BattleBuffers.WrappedWindowIsTooLong` say what happens otherwise.
- ReliableLink.DrainedAfter: for round trips without loss and without new messages, as `Draining.EverythingArrives`; the fairness of a lossy network is not modelled.
- Draining.EverythingArrives: from states between packets in which the buffers have room for what is still to be forwarded.
- TwoHop.DeliveredEndToEnd: the path through the server only, not the direct paths between clients, and one UDP peer per player; a peer created anew after a timeout before its join is not modelled. Any message may be the one that joins.
- BattleBuffers.BattleBuffer.GetSendData: returns the messages as values; that the source returns a slice of the ring, which later pushes overwrite, is not modelled.
- BattleRooms.UDPPeer.ServeReading: the branch of a peer that joined; the join itself is `Room.Join` and a step of `TwoHop`.
- BattleRooms.Room.Leave: clears in one step; the gap between vacating and clearing is part of `TwoHop`.
- RelayStates.Do: IPv6 zones, and the test relay of `ServeTestRelay`.
- TlsHandshake.HandshakesAgree: certificates, RSA, RC4, MD5, SHA-1 and HMAC are parameters; nothing is said about their strength or about an attacker.
- TlsHandshake.HandshakesAgreeExactly: for certificate chains below 2^24 bytes, the most their length field can say.
- TlsConns.TlsConn.Read: on bytes that arrived; waiting for more, alerts sent on closing and the HTTP query are not modelled.
- Spectators.SpectatorRegistry.Open: the list of users that is shown for a battle.
- Spectators.LiveWatcher.Send: the clock is read once a turn; a connection's behaviour, write by write, is a parameter.
- SpectatorFanout.CountersAreExact: when the writer is stopped its watchers are dropped one by one, which are steps of the machine; the loop that does it is not modelled.
- Spectators.SpectatorRegistry.Deliver: one pass in which battles do not change; changes during a pass are in `SpectatorFanout`. Fairness of the rotation is not claimed: it compounds on an already rotated slice.
- Framing.TCPReader.OnRead: how a session id is decoded and its room found; which ten bytes have a room is a parameter.
- Matchmaking.Lobby.StartBattleUsers: rooms, rules and the entry counts shown to players.
- RelayRegions.RelayNeeded: names are compared character by character, which is the order of bytes for the ASCII names in use.
- Provisioning.RunIsSafe: a relay object is registered once, as the control connection does; a shutdown request that is lost because its queue is full still counts as made.
- Ranking.SortSlice: insertion sort in place of the library's sort; any other gives the same list (`Ranking.SortedIsUnique`).
- EncryptedStrings.MessageBodyReader.ReadEncryptedString: up to the bytes of the string; Shift-JIS decoding and trimming of zero bytes follow in the source. Other fields of bodies are not modelled.
- The dispatch loop of the lobby's connections, which ends a connection on an incomplete message.
- Databases and the ranking cache, the lobby's handlers, HTTP, Discord, DNS, UPnP, self-update and the website.
