# libipsec: a verified model

libipsec controls strongSwan's `charon` over the VICI socket, reads SAs, states, policies and routes back, and comes
with an application that brings connections up and down, registers peers, and tests algorithm proposals between two
machines.  This project models the parts of it with the most state and branching and proves what they are for:

- the VICI message format: the printer, the single-pass parser, the packets and the framing over a socket that moves
  bytes in chunks (`ViciGrammar`, `ViciNames`, `ViciParser`, `ViciBuffer`, `ViciTransport`, `Folding`);
- one command transaction with its event stream, and many threads that issue commands on one context (`ViciClient`);
- the collectors that turn `list-sas` and `list-conns` events into lists, and the `load-conn` message that the second
  of them reads back (`SaCollector`, `Connection`, `ConnectionList`);
- the algorithm test: an initiator and a responder that exchange datagrams over a channel that may lose, repeat, delay
  and reorder them (`Host`, `Algorithm`, `AlgorithmMessages`, `AlgorithmClient`, `AlgorithmServer`, `AlgorithmSafety`);
- the lifecycle loop and its waits (`Lifecycle`), and peer registration (`Peer`);
- text in place: the command tokenizer, the proposal searches and the proposal splitter, durations, bounded strings,
  `strtok_r` and `strstr` (`CommandLine`, `Proposals`, `RuntimeConfig`, `Duration`, `TextBuffer`, `Text`, `Core`);
- the Netlink message walk and the route attribute walk (`Netlink`, `RouteAttributes`).

Bytes are characters below 256, so that the C string constants can be written as they are.  Code that changes things
in place is a class or a method on an array, and each such method is tied to a function of its old state; the lemmas
are about those functions.  What the program does not decide itself (allocation, how many bytes a `send` moves, what
the daemon answers, when the user stops it) is an input or is chosen arbitrarily.

## Where the code does not do what it seems to promise

- `HasNativeAppPfsToken` keeps overwriting its flag, so it looks at the last component of a proposal only.  It misses
  `esp` proposals such as `aes128-modp2048-esn` (`Proposals.PfsSearchMissesMiddle`), and it is right about
  "some component is a key exchange" exactly when none has a hyphen behind it or some proposal ends in one
  (`Proposals.PfsSearchAgrees`).
- The library's own search never looks at a first component: it is right about the same exactly when no proposal starts
  with a key exchange or it finds one elsewhere (`Proposals.LibrarySearchAgrees`).  So the PFS setting that
  the application derives is refused by the library exactly when some proposal is a lone key exchange and none has one
  behind a hyphen (`Proposals.DerivedPfsPasses`, `RuntimeConfig.DerivedMatches`).
- `load-conn` writes times as `5s`, and the `list-conns` reader takes whole numbers only.  A written message reads back
  exactly when no IKE time is set and the joined addresses fit (`ConnectionList.MessageReadsBack`,
  `ConnectionList.SecondsUnreadable`).
- Two acceptors at one peer table can send the same ids to two peers, and one of the two is then not stored; no run
  repeats ids exactly when there is at most one acceptor (`Peer.NeverRepeatsIff`).
- The 32 bit counter of the removal wait moves in steps of 100 and wraps around; against a daemon that never lets go
  the wait ends exactly for the timeouts below 4294967292 ms (`Lifecycle.EndsIffBelowLargestStep`).  Every timeout that
  the configuration can store is below that (`Lifecycle.StoreTimeout`).
- The iteration counter wraps around before it can exceed a loop count of 4294967295, so such a run never completes; the
  counter exceeds every smaller count (`Lifecycle.CompletesIffBelowLargestCount`, `Lifecycle.RunIterations`,
  `Lifecycle.RunLoop`).
- The numbers of states and policies of a case are added up over its queries and never set back, so a repeated VERIFY can
  be answered with PASS in a round that shows none; a success is sure to have seen its own exactly if nothing had been
  counted before (`Algorithm.SeesItsOwnIffFirst`).
- The parser hands out names with their lengths, NULs included, and the calls that write names take C strings.  Giving
  the delivered elements back to the calls gives the message back exactly if no name holds a NUL
  (`ViciParser.ReplayReproducesMessage`, `ViciParser.NulNameAccepted`).
- The announcement of an algorithm case copies the proposals unchecked; the responder reads what was meant exactly when
  no text is empty and none holds a vertical bar (`AlgorithmMessages.PrepareRead`, `AlgorithmMessages.LeadingBarDropped`).
- `libipsec/docs/native_architecture.md:341` wants a limit on the items of a list; the parser has none, only the one on
  the depth (`ViciParser.AnyListAccepted`).  Line 141 has malformed frames close the connection; that is true of a
  frame's length, but after a packet that was taken whole and then refused, for its contents or otherwise, the socket
  stays open, and after every other failure of the stream it is closed (`ViciClient.ReceiveStream`).
  `libipsec/docs/public_api.md:108` wants contradicting ESN tokens refused; an accepted configuration contradicts itself
  exactly if ESN is set either way and both tokens are there (`Connection.ContradictionAccepted`,
  `Connection.ContradictionExists`).  The model follows the code.

## Model

| member | source | states |
|---|---|---|
| ViciParser.ReadName | libipsec/ipsec/vici/vici_parser.c:6-34 | a name is read exactly when its length byte is not zero and the message is long enough; the cursor then stands behind it |
| ViciParser.ReadValue | libipsec/ipsec/vici/vici_parser.c:36-67 | the same for a value behind its big-endian 16 bit length |
| ViciParser.ReadElement | libipsec/ipsec/vici/vici_parser.c:86-170 | one turn of the loop: the element at the cursor and the new depth and list state, or a protocol error |
| ViciParser.ParseMessage | libipsec/ipsec/vici/vici_parser.c:69-189 | the loop delivers the elements in order to any callback until one is malformed or refused, and ends with an error unless every section and list is closed |
| ViciParser.DeliverFolds | libipsec/ipsec/vici/vici_parser.c:69-189 | the parser folds its callback over exactly the events of a well-formed message, and no malformed message ends without an error, whatever the callback does |
| ViciParser.ParseDeliversEvents | libipsec/ipsec/vici/vici_parser.c:69-189 | parsing the bytes of any tree within the limits delivers exactly its events, in order and with their depths |
| ViciParser.AcceptsExactlyTrees | libipsec/ipsec/vici/vici_parser.c:69-189 | the byte strings that the depth counter and the list flag let through are exactly the encodings of trees of depth at most 32 |
| ViciParser.ParserAcceptsExactly | libipsec/ipsec/vici/vici_parser.c:69-189 | with a callback that writes events down the parser succeeds exactly on the encodings of trees, and what is written down are that tree's events |
| ViciParser.EncodeInjective | libipsec/ipsec/vici/vici_parser.c:69-189 | the tree of an accepted message is unique |
| ViciParser.ReencodedMessage | libipsec/ipsec/vici/vici_parser.c:69-189 | encoding the delivered elements, names with their lengths, gives the message back, byte for byte |
| ViciParser.ReplayReproducesMessage | libipsec/ipsec/vici/vici_parser.c:69-189 | giving the delivered elements to the `AddVici*` calls, which see a name up to its first NUL, gives the message back exactly if no delivered name holds one |
| ViciParser.NulNameAccepted | libipsec/ipsec/vici/vici_parser.c:6-34 | the parser accepts a message whose one name is a NUL, and no call can write that name |
| ViciParser.AnyListAccepted | libipsec/ipsec/vici/vici_parser.c:132-156 | a list with any number of items is accepted |
| ViciGrammar.AssembleInvertsEvents | libipsec/ipsec/vici/vici_parser.c:85-186 | the events of a tree, or of what is left of it inside open sections and an open list, determine it |
| ViciGrammar.ReplayedEvents | libipsec/ipsec/vici/vici_packet.c:149-302 | the bytes of the elements of a tree, one behind the other, are exactly its encoding, also from inside open sections and an open list |
| ViciGrammar.ExampleBytes | libipsec/tests/unit/test_vici_packet.c:33-48 | the grammar gives the published example message its published bytes |
| ViciNames.SeenBytes | libipsec/ipsec/vici/vici_packet.c:120-147 | what the calls see of elements is the elements themselves exactly if no name holds a NUL, and takes fewer bytes otherwise |
| ViciNames.SpokenEvents | libipsec/ipsec/vici/vici_packet.c:149-302 | what the calls see of a tree's elements are the elements of one tree, the one with its names cut |
| ViciNames.SpokenValid | libipsec/ipsec/vici/vici_packet.c:120-147 | the calls accept those elements exactly if the cut tree is within the limits |
| ViciNames.SpokenSame | libipsec/ipsec/vici/vici_packet.c:120-147 | the cut tree is the tree exactly if no name holds a NUL |
| ViciBuffer.Buffer.Initialize | libipsec/ipsec/vici/vici_packet.c:55-72 | the buffer is empty and has room for what was asked for, or the error says whether it was too much or the allocation failed |
| ViciBuffer.Buffer.Reserve | libipsec/ipsec/vici/vici_packet.c:7-53 | the capacity stays 0 or 64 doubled up to 512 KiB, grows no further than it must, keeps the contents, and only the limit or the allocator refuses |
| ViciBuffer.Buffer.Append | libipsec/ipsec/vici/vici_packet.c:91-113 | all of the bytes behind the old contents, or none of them; too small exactly beyond 512 KiB |
| ViciBuffer.Buffer.AppendName | libipsec/ipsec/vici/vici_packet.c:120-147 | a name, which ends at its first NUL, of 1 to 255 bytes stands behind its length; other names are refused |
| ViciBuffer.Buffer.Add | libipsec/ipsec/vici/vici_packet.c:149-302 | each `AddVici*` call appends the bytes of what it sees of its element; a failure leaves the old contents as a prefix, and on valid arguments only the limit or the allocator causes one |
| ViciBuffer.Buffer.AddAll | libipsec/ipsec/vici/vici_packet.c:149-302 | a sequence of calls whose arguments are valid as the calls see them succeeds within 512 KiB unless an allocation fails, and then has appended what the calls see of all elements |
| ViciBuffer.BuildNamedPacket | libipsec/ipsec/vici/vici_packet.c:304-347 | the packet is its type, its name and the request, exactly when the name is valid, all of it fits and every allocation, the first included, succeeds |
| ViciBuffer.DecodeEncodedPacket | libipsec/ipsec/vici/vici_packet.c:349-403 | decoding a packet that was built gives its type, name and message back |
| ViciBuffer.EncodeDecodedPacket | libipsec/ipsec/vici/vici_packet.c:349-403 | every packet that decodes is the encoding of what it decodes to |
| ViciBuffer.BuildAndParse | libipsec/ipsec/vici/vici_packet.c:149-302 | for every tree whose names do not start with a NUL and whose encoding fits 512 KiB the calls succeed unless an allocation fails, and parsing the built bytes folds any callback over the elements of the tree the calls saw, which are the tree's own if no name holds a NUL |
| ViciTransport.Transport.TransferBytes | libipsec/ipsec/vici/vici_transport.c:92-136 | however the kernel cuts the chunks, a success has moved exactly the bytes, in order, and a failure a prefix of them |
| ViciTransport.Transport.Connect | libipsec/ipsec/vici/vici_transport.c:138-221 | an open socket is kept; a new one starts with nothing sent and nothing read; a failure leaves it closed |
| ViciTransport.Transport.Disconnect | libipsec/ipsec/vici/vici_transport.c:223-232 | the socket is closed |
| ViciTransport.Transport.Send | libipsec/ipsec/vici/vici_transport.c:234-278 | the whole frame has left and the socket is open, or the socket is closed; a packet that is too long changes nothing |
| ViciTransport.Transport.Receive | libipsec/ipsec/vici/vici_transport.c:280-333 | exactly the packet of the next frame has been read, or the socket is closed; an open socket always stands between two frames |
| ViciTransport.Transport.ReceiveMany | libipsec/ipsec/vici/vici_transport.c:280-333 | any number of error-free receives return exactly the packets at the head of the stream, in order |
| ViciTransport.FrameUnique | libipsec/ipsec/vici/vici_transport.c:234-333 | a byte stream has one first frame |
| ViciTransport.Carry | libipsec/ipsec/vici/vici_transport.c:92-333 | any list of packets of 1 byte to 512 KiB that is sent and received without an error arrives as it was sent, whatever chunks the two sockets move |
| ViciClient.ParseCommandResult | libipsec/ipsec/vici/vici_client.c:28-88 | success exactly on well-formed responses whose every `success` pair says yes or no; the last `success` pair and the last `errmsg` pair then decide |
| ViciClient.LastPairDecides | libipsec/ipsec/vici/vici_client.c:28-67 | the callback's result after any elements is that of the last pair of each name, and it fails exactly on a `success` that is neither yes nor no |
| ViciClient.ExchangeRegistration | libipsec/ipsec/vici/vici_client.c:90-139 | a success has sent the one registration packet and taken the one confirmation; a failure that leaves the socket open has sent that packet or nothing |
| ViciClient.ReceiveStream | libipsec/ipsec/vici/vici_client.c:141-208 | a success has taken events and then one response, gave the callback exactly the events with the registered name, in order, and the response to the other callback; after a failure the socket is open exactly if a packet was taken whole and refused |
| ViciClient.Dispatch | libipsec/ipsec/vici/vici_client.c:157-203 | a packet fails the stream exactly if it is malformed, of the wrong kind, or turned down by a callback |
| ViciClient.SendRequest | libipsec/ipsec/vici/vici_client.c:256-282 | a success has sent the request packet and taken one stream; a failure that leaves the socket open has sent that packet or nothing |
| ViciClient.ExecuteCommand | libipsec/ipsec/vici/vici_client.c:210-318 | a success has written registration, request and unregistration, and has consumed one whole transaction: confirmation, events, response, confirmation, with the named events and the response handed to the callbacks; whatever fails, while the socket is open the command has written a beginning of its packets or its registration packets alone |
| ViciClient.PartsMaySend | libipsec/ipsec/vici/vici_client.c:247-297 | a request is sent only behind a registration that is due, and the end of a registration only behind its beginning, which leaves exactly those possibilities |
| ViciClient.TransactionUnique | libipsec/ipsec/vici/vici_client.c:210-318 | against a daemon that answers with one transaction, the packets a successful command took are exactly the ones the daemon sent |
| ViciClient.PacketsAreFrames | libipsec/ipsec/vici/vici_client.c:90-318 | the packets a thread sends for its job in the system of threads are the ones that the command method writes |
| ViciClient.StepServed | libipsec/ipsec/vici/vici_client.c:239-300 | whoever moves, the wire stays one block for each of the last turns at the mutex, in their order, and only the owner of the mutex adds to the last one |
| ViciClient.CommandsNeverInterleave | libipsec/ipsec/vici/vici_client.c:239-300 | in every run of any number of threads, whatever transfers fail, the wire of the current connection is what the commands of the last turns at the mutex sent, one command's packets behind another's, in the order of the turns |
| ViciClient.TurnsWereAsked | libipsec/ipsec/vici/vici_client.c:239-300 | every turn is for a command that its own thread had asked for |
| SaCollector.Collector.constructor | libipsec/ipsec/vici/vici_sa.c:718-759 | a query starts with empty lists and nothing current |
| SaCollector.Collector.Append | libipsec/ipsec/vici/vici_sa.c:215-252 | a new entry at the end becomes the current one, or the list is as before |
| SaCollector.Collector.AppendBelow | libipsec/ipsec/vici/vici_sa.c:254-292 | a new CHILD with the name of the section around it becomes the current one |
| SaCollector.Collector.Element | libipsec/ipsec/vici/vici_sa.c:636-707 | the callback changes the collector's fields as the step function says, for every event, and the current entries stay the last ones |
| SaCollector.PointersStayAtEnd | libipsec/ipsec/vici/vici_sa.c:215-292 | whatever events arrive in whatever order, a current entry is none or the last of its list |
| SaCollector.CollectsMessage | libipsec/ipsec/vici/vici_sa.c:575-716 | collecting a message appends exactly the entries that its tree denotes, and succeeds exactly when every section and list name fits, the fields of the wanted entries parse, and there is room |
| SaCollector.CollectsAnswer | libipsec/ipsec/vici/vici_sa.c:575-759 | the same for a whole sequence of messages: the lists are the entries of all the trees in order |
| SaCollector.QueriesAreProjections | libipsec/ipsec/vici/vici_sa.c:761-823 | whenever the combined query succeeds, the IKE query and the CHILD query succeed and return its two halves |
| SaCollector.AnswerDenotes | libipsec/ipsec/vici/vici_sa.c:709-759 | messages collected without an error are encodings of trees, and the lists are what those trees denote |
| SaCollector.QuerySas | libipsec/ipsec/vici/vici_sa.c:718-823 | a successful query has consumed one transaction, and its lists hold one IKE per top-level section and one CHILD per section inside `child-sas` of that transaction's `list-sa` messages; a failed one returns nothing |
| Connection.ValidateName | libipsec/ipsec/vici/vici_connection.c:35-66 | a name is accepted exactly if it has 1 to 63 printable characters, no blank and no brace |
| Connection.ValidateList | libipsec/ipsec/vici/vici_connection.c:68-104 | a list is accepted exactly if it has 1 to 64 items of 1 to 1024 characters |
| Connection.Validate | libipsec/ipsec/vici/vici_connection.c:160-259 | success exactly on valid configurations, "not supported" exactly on those whose basics are good and whose authentication is not a shared key |
| Connection.ContradictionAccepted | libipsec/ipsec/vici/vici_connection.c:242-253 | an accepted configuration contradicts its own proposals exactly if ESN is set either way and both tokens are there; with both there either setting is accepted |
| Connection.ContradictionExists | libipsec/ipsec/vici/vici_connection.c:242-253 | there is such a configuration |
| Connection.BuildMessage | libipsec/ipsec/vici/vici_connection.c:327-576 | a valid configuration is written as the encoding of its tree and fails only for lack of memory, or for a time above 2^64-1000; it never reaches the 512 KiB limit |
| Connection.TreeSmall | libipsec/ipsec/vici/vici_connection.c:327-576 | the message of every valid configuration is within the grammar and below 512 KiB |
| Connection.PutDuration | libipsec/ipsec/vici/vici_connection.c:294-325 | a time is written in seconds, rounded up, unless it is zero; one above 2^64-1000 fails |
| Connection.PutList | libipsec/ipsec/vici/vici_connection.c:272-292 | a list is written item by item, unless an error stands already |
| ConnectionList.Collector.AppendInfo | libipsec/ipsec/vici/vici_connection.c:646-679 | a new entry with the section's name becomes the current one, or the list is as before |
| ConnectionList.Collector.Element | libipsec/ipsec/vici/vici_connection.c:702-819 | the callback changes the collector's fields as the step function says, for every event |
| ConnectionList.SecondsUnreadable | libipsec/ipsec/vici/vici_connection.c:681-700 | a time as `load-conn` writes it is never readable |
| ConnectionList.ReadsBack | libipsec/ipsec/vici/vici_connection.c:702-819 | collecting the events of a valid configuration's tree gives its name, joined addresses, identities and CHILD name exactly if no IKE time is set, the joined addresses fit and there is room; otherwise it fails |
| ConnectionList.MessageReadsBack | libipsec/ipsec/vici/vici_connection.c:702-828 | the same for the bytes that the builder writes |
| RuntimeConfig.BuildRuntimeConfig | libipsec/app/config.c:802-906 | success exactly if both proposal lists split; the library then accepts the configuration exactly if the application's settings are usable and the proposals are not only lone key exchanges |
| RuntimeConfig.DeriveEsn | libipsec/app/config.c:891-899 | disabled exactly if a proposal has a `noesn` component, enabled exactly if one has `esn` and it is not disabled |
| RuntimeConfig.DerivedMatches | libipsec/app/config.c:891-901 | the derived settings always pass the library's ESN check, and its PFS check exactly if the proposals are not only lone key exchanges |
| Proposals.HasToken | libipsec/app/algorithm_catalog.c:141-161 | the skip-ahead search succeeds exactly if the token is one of the hyphen-separated components |
| Proposals.HasProposalToken | libipsec/app/config.c:739-768 | the search over a list succeeds exactly if some proposal has the token as a component |
| Proposals.ContainsToken | libipsec/ipsec/vici/vici_connection.c:106-142 | the component-by-component search finds exactly the same |
| Proposals.HasPfsToken | libipsec/app/config.c:770-800 | true exactly if the last component of some proposal, an empty one at its very end not counted, is a key exchange |
| Proposals.ContainsPfsToken | libipsec/ipsec/vici/vici_connection.c:144-158 | true exactly if some component that is not the first of its proposal is a key exchange |
| Proposals.LastVisitedIs | libipsec/app/config.c:780-797 | the component that decides the flag is the last one of the proposal's components |
| Proposals.PfsSearchAgrees | libipsec/app/config.c:770-800 | the search is right about "some component is a key exchange" exactly when no key exchange has a hyphen behind it or some proposal ends in one; it never finds one that is not there |
| Proposals.PfsSearchMissesMiddle | libipsec/app/config.c:780-797 | a key exchange with another component behind it is missed, whatever stands before it |
| Proposals.LibrarySearchAgrees | libipsec/ipsec/vici/vici_connection.c:144-158 | the library's search is right exactly when no proposal starts with a key exchange or it finds one elsewhere; it never finds one that is not there |
| Proposals.DerivedPfsPasses | libipsec/app/config.c:900-901 | the derived PFS setting passes the library's check unless some proposal is a lone key exchange and none has one behind a hyphen |
| Proposals.ExpectedChild | libipsec/app/algorithm_catalog.c:176-209 | the expected name is that of the first table entry whose keyword is a component of the ESP proposal; the ESN expectations are the components `esn` and `noesn` |
| Proposals.SplitProposals | libipsec/app/config.c:690-737 | the items are the trimmed pieces between commas; success exactly if there are 1 to 32 of them and each has 1 to 255 characters |
| Proposals.SplitInvertsJoin | libipsec/app/config.c:690-737 | splitting inverts joining with commas, for all lists of 1 to 32 trimmed comma-free items shorter than 256 |
| Text.ReadBackIffClean | libipsec/app/algorithm_runner.c:542-570 | fields joined with a separator are read back by `strtok_r` exactly when none is empty and none holds the separator or a NUL |
| Text.TokensOfGlue | libipsec/app/algorithm_runner.c:542-570 | joined fields, whatever separators they hold, are read as the tokens of each, one field behind the other |
| Text.NextToken | libipsec/app/algorithm_runner.c:556-561 | one `strtok_r` call yields the next piece that is not empty |
| Text.StandsIffPart | libipsec/app/algorithm_catalog.c:141-161 | a token stands between hyphens or ends of a proposal exactly if it is one of its components |
| AlgorithmMessages.Split | libipsec/app/algorithm_runner.c:542-570 | the fields of a datagram up to its first NUL, exactly if there are between two and the capacity and the first is the protocol's name |
| AlgorithmMessages.Format | libipsec/app/algorithm_runner.c:598-623 | a control message is its five fields between bars; it is refused exactly if a field holds a bar or a line end |
| AlgorithmMessages.ControlRead | libipsec/app/algorithm_runner.c:542-623 | a control message of clean fields is read as it was meant |
| AlgorithmMessages.PrepareRead | libipsec/app/algorithm_runner.c:1238-1251 | an announcement is read as it was meant exactly if its texts are not empty and hold neither a bar nor a NUL |
| AlgorithmMessages.AnnouncementReads | libipsec/app/algorithm_runner.c:1238-1251 | an announcement with any proposals is read as the case id and then the tokens of the two proposals, the run and the numbers |
| AlgorithmMessages.ProposalsRead | libipsec/app/algorithm_runner.c:1238-1251 | the responder reads the two proposals that were meant exactly if neither is empty and neither holds a bar |
| AlgorithmMessages.LeadingBarDropped | libipsec/app/algorithm_runner.c:1238-1251 | an announcement with a bar before the IKE proposal is read exactly as one without it |
| Algorithm.QueryState | libipsec/app/algorithm_runner.c:625-760 | the phases stay a chain, data path to XFRM to ESP to IKE; a success has seen an established IKE and an installed CHILD with the expected key exchange and sequence numbers, and states and policies of its request id in this or in an earlier query of the case |
| Algorithm.SeesItsOwnIffFirst | libipsec/app/algorithm_runner.c:733-750 | every success of a query shows states and policies of its request id in its own round exactly if none had been counted before it |
| Algorithm.RemoveSas | libipsec/app/algorithm_runner.c:893-929 | one to three waits, each behind a termination if one is due, and nothing else |
| Algorithm.RemoveConnection | libipsec/app/algorithm_runner.c:929-956 | one to three removal calls, and nothing else |
| Algorithm.VerifyClean | libipsec/app/algorithm_runner.c:957-980 | the last check succeeds only when neither the connection nor an SA is there |
| Algorithm.CleanUp | libipsec/app/algorithm_runner.c:870-994 | a cleanup succeeds only when neither the connection nor an SA is left; its record says so, and an unrecovered success needed one attempt of everything; a load has then had its one cleanup |
| AlgorithmClient.WaitResponse | libipsec/app/algorithm_runner.c:1176-1223 | a success has received the awaited answer for this case; a PASS it returns was in a RESULT for this case; a stop request always ends the wait |
| AlgorithmClient.PreparePeer | libipsec/app/algorithm_runner.c:1225-1272 | a success has received READY for the case, unless a stop was requested |
| AlgorithmClient.VerifyPeer | libipsec/app/algorithm_runner.c:1274-1296 | a returned PASS arrived in a RESULT for the case |
| AlgorithmClient.FinishPeer | libipsec/app/algorithm_runner.c:1298-1350 | a success has received DONE for the case; at most three attempts, and more than one marks the cleanup as recovered |
| AlgorithmClient.FinishRun | libipsec/app/algorithm_runner.c:1352-1376 | a success has received FINISHED for the run |
| AlgorithmClient.RunCase | libipsec/app/algorithm_runner.c:1378-1490 | a pass means READY, PASS and DONE arrived for this case, all four phases were verified, and neither connection nor SA is left here; there is an error exactly if there is no pass, and no load is left without its cleanup |
| AlgorithmClient.Requested | libipsec/app/algorithm_runner.c:1519-1525 | all cases from the start on, or the limit if it is smaller |
| AlgorithmClient.RunClient | libipsec/app/algorithm_runner.c:1492-1695 | a run without an error executed every requested case in order, each one passed, and the responder confirmed the end, for any pattern of failures and stops |
| AlgorithmServer.ParseUint32 | libipsec/app/algorithm_runner.c:572-596 | exactly the digit strings whose value fits 32 bits are read, as that value |
| AlgorithmServer.Reply | libipsec/app/algorithm_runner.c:1697-1712 | a reply that claims no more than the history shows keeps the history true |
| AlgorithmServer.ServeMessage | libipsec/app/algorithm_runner.c:1770-1838 | every message of a case, expected or not, keeps the history true: a PASS only behind a successful query of this case, a DONE only behind a verified cleanup of it |
| AlgorithmServer.ServeCase | libipsec/app/algorithm_runner.c:1714-1871 | a case that loaded its connection has had exactly one cleanup, whatever arrives; a verified one leaves nothing behind |
| AlgorithmServer.ServeRequest | libipsec/app/algorithm_runner.c:1943-2097 | between cases nothing is loaded, and a remembered case was the last one cleaned, also when its DONE is repeated |
| AlgorithmServer.Serve | libipsec/app/algorithm_runner.c:1873-2110 | in every run of the responder loads and cleanups pair up, every PASS and DONE it sent was true when it was sent, and nothing stays loaded; it returns no error exactly if it was stopped or the last thing it said was FINISHED |
| AlgorithmSafety.MonitorGrows | libipsec/app/algorithm_runner.c:1714-2110 | what a history has announced, confirmed and cleaned up stays so |
| AlgorithmSafety.DoneWasClean | libipsec/app/algorithm_runner.c:1807-1834 | a responder that said DONE for a case had verified its cleanup, and neither connection nor SA was there at that moment |
| AlgorithmSafety.ReadRight | libipsec/app/algorithm_runner.c:1238-1251 | a responder knows a case by the case's own proposals exactly if neither is empty and neither holds a bar |
| AlgorithmSafety.PassMeansConfirmed | libipsec/app/algorithm_runner.c:1378-1490 | over a channel that invents nothing, a case that passes at the initiator was confirmed by the responder's own query for the same case and the two proposals as it read them, which are the case's own if they hold no bar, and cleaned up there; at the initiator all four phases are verified |
| AlgorithmSafety.RunBoth | libipsec/app/algorithm_runner.c:1492-2110 | both programs as written, for any proposals: a run without an error has every requested case confirmed as it was read and cleaned up by the responder, whatever the daemons, the users and the channel did; cases whose proposals hold no bar are confirmed with their own |
| Lifecycle.AnythingLeft | libipsec/app/lifecycle.c:339-360 | the loops find something exactly if the lists show the test connection or a state or policy of its request id |
| Lifecycle.WaitRemoved | libipsec/app/lifecycle.c:299-380 | success only right behind a round of queries that showed nothing; for a timeout below 4294967200 ms at most timeout/100+1 rounds, with the counter never wrapping |
| Lifecycle.EndsIffBelowLargestStep | libipsec/app/lifecycle.c:308-372 | the counter exceeds the timeout at some time exactly for the timeouts below 4294967292 |
| Lifecycle.StoreTimeout | libipsec/app/config.c:237-249 | what can be stored is at most 4294967000, where the counter never wraps |
| Lifecycle.VerifyInstalled | libipsec/app/lifecycle.c:199-297 | success exactly if an IKE is established and the first installed CHILD has a request id with states and policies; it returns that id |
| Lifecycle.CountIds | libipsec/app/lifecycle.c:260-277 | the number of entries with the request id |
| Lifecycle.RunIteration | libipsec/app/lifecycle.c:429-514 | a load that fails is the only call; one that succeeds is followed by one start, one termination and one unload, whatever fails; a passed iteration saw the SAs installed and then nothing of them |
| Lifecycle.CompletesIffBelowLargestCount | libipsec/app/lifecycle.c:429-431 | the iteration counter exceeds the loop count at some time, which is how the loop completes, exactly for the counts below 4294967295 |
| Lifecycle.RunIterations | libipsec/app/lifecycle.c:429-525 | the loop ends without a failure and without a stop only when the counter has passed the count, and then every iteration has been executed and has passed |
| Lifecycle.RunLoop | libipsec/app/lifecycle.c:396-546 | in every run as many unloads as successful loads; a run returns no error exactly if nothing in it failed and nobody stopped it, and then it executed every iteration and each one passed; a passed one leaves no connection, and no SA unless the other side brings one up |
| Peer.Sequence | libipsec/app/peer.c:288-304 | a hundred logons to a group, both from 1; the ids determine the place in the table |
| Peer.PeerIdsDiffer | libipsec/app/peer.c:288-330 | different places get different peer ids |
| Peer.Table.AllocateIds | libipsec/app/peer.c:376-393 | the ids of the next place, unless the table is full; nothing is reserved |
| Peer.Table.Append | libipsec/app/peer.c:395-421 | the entry is appended exactly if there is room and an initiator's ids are still the next ones |
| Peer.ReceiveLine | libipsec/app/peer.c:240-286 | the text before the first line feed, exactly if it comes and fits |
| Peer.AssignReads | libipsec/app/peer.c:635-1020 | an assignment line is read as it was meant, exactly if its address is one |
| Peer.AcceptPeer | libipsec/app/peer.c:635-758 | an entry is stored exactly when the whole assignment line was sent, with the ids the line carried and the registered address; a failure leaves the table as it was |
| Peer.RegisterPeer | libipsec/app/peer.c:909-1020 | a success appends exactly the profile that the assignment describes; a failure leaves the table as it was |
| Peer.RegisterBoth | libipsec/app/peer.c:635-1020 | if both ends succeed, the two stored profiles describe the same connection from opposite sides |
| Peer.TableInSequence | libipsec/app/peer.c:376-421 | under every interleaving of any number of acceptors entry i has group i/100+1 and logon i%100+1, and its line was sent |
| Peer.OneListenerNeverRepeats | libipsec/app/peer.c:635-758 | with one acceptor no two complete assignment lines carry the same ids |
| Peer.ManyAcceptorsRepeat | libipsec/app/peer.c:376-421 | for every number of acceptors from two on there is a run that sends the same ids twice and stores one of them |
| Peer.NeverRepeatsIff | libipsec/app/peer.c:376-421 | no run of n acceptors sends the same ids twice exactly when n is at most one |
| CommandLine.ReadWord | libipsec/app/command.c:134-172 | one argument, rewritten in place: it is never written over a character that has not been read, and it is what the tokenizer on the original text says |
| CommandLine.ParseCommandLine | libipsec/app/command.c:95-192 | success exactly if no quote is left open and the arguments fit; they then stand in the buffer as disjoint NUL-terminated ranges, and nothing behind the line is touched |
| CommandLine.QuotingReadsBack | libipsec/app/command.c:95-192 | every list of arguments, empty ones and ones with blanks, quotes and backslashes included, survives quoting |
| Duration.ParseDuration | libipsec/ipsec/core/util.c:185-276 | a text of 1 to 127 bytes is read as its duration or refused; the output keeps its value on every failure |
| Duration.ReadPair | libipsec/ipsec/core/util.c:226-263 | the divisions in the overflow checks refuse exactly the products and sums that exceed 64 bits |
| Duration.RenderedReads | libipsec/ipsec/core/util.c:146-276 | every list of numbers with units, however separated and with the white space and signs that `strtoull` takes, is read as the exact sum, or refused exactly if a number or that sum exceeds 64 bits |
| Duration.ReadsExactly | libipsec/ipsec/core/util.c:146-276 | a text is read as a number of seconds exactly if it is such a list with that sum, or the one special text |
| Core.ParseDigits | libipsec/ipsec/core/util.c:74-107 | digits that something else follows read as the number they denote, leading zeros or not |
| Core.ParseNumeral | libipsec/ipsec/core/util.c:226-236 | white space, a sign and digits are taken whole, with a minus sign negating modulo 2^64, and are out of range exactly if the digits exceed 64 bits |
| Core.NumeralOf | libipsec/ipsec/core/util.c:226-236 | whatever is taken for a number is white space, a sign and digits |
| TextBuffer.CopyInto | libipsec/ipsec/core/util.c:45-72 | the buffer holds the copied text, or nothing if it does not fit; what stands behind it is not touched |
| TextBuffer.AppendInto | libipsec/ipsec/core/util.c:278-321 | the separator, unless the text was empty, and the value stand behind the old text; a failure changes nothing |
| Netlink.WalkDatagram | libipsec/ipsec/core/netlink.c:177-228 | the inner loop hands on the messages of one datagram up to DONE, an error or a refusal |
| Netlink.ReceiveDump | libipsec/ipsec/core/netlink.c:126-241 | the two loops end within 4097 datagrams, and compute what the dump function says of them |
| Netlink.WalkAcceptsExactly | libipsec/ipsec/core/netlink.c:177-228 | the walk goes past a datagram exactly if it is a sequence of padded messages of this dump, none of them DONE or an error |
| Netlink.DumpDelivers | libipsec/ipsec/core/netlink.c:126-241 | of every answer of at most 4097 datagrams the callback gets exactly the data messages before the first DONE, in order, whether DONE is padded or not and whatever follows it |
| Netlink.DumpAcceptsExactly | libipsec/ipsec/core/netlink.c:126-241 | a dump succeeds exactly if what arrives is such an answer and the callback refuses none of its data messages |
| Netlink.DumpRecords | libipsec/ipsec/core/netlink.c:126-241 | a callback that writes messages down has, behind a dump that succeeds, exactly the answer's data messages |
| RouteAttributes.ParseAttributes | libipsec/ipsec/route/route.c:129-188 | the loop visits the attributes in order and must end with nothing left |
| RouteAttributes.ParseMultipath | libipsec/ipsec/route/route.c:89-127 | the nested loop takes the first next hop's interface and gateways, and must end with nothing left |
| RouteAttributes.AcceptsExactly | libipsec/ipsec/route/route.c:129-188 | an attribute loop succeeds exactly if the payload is a sequence of attributes padded to four bytes and none is refused |
| RouteAttributes.EndsExactly | libipsec/ipsec/route/route.c:89-127 | the nested loop, which refuses nothing, succeeds exactly on sequences of padded attributes |
| RouteAttributes.HopReads | libipsec/ipsec/route/route.c:89-127 | a multipath attribute reads as its first next hop's interface and that hop's gateways; other hops are not looked at |
| RouteAttributes.RouteReads | libipsec/ipsec/route/route.c:89-188 | a route with any number of multipath attributes, malformed ones behind a known interface included, yields the last value of each kind, where a first next hop stands for its interface and gateways, and for nothing if an interface is already known |
| RouteAttributes.RouteReadsExactly | libipsec/ipsec/route/route.c:89-188 | a route is read without an error, and to these values, exactly if its payload is a sequence of padded attributes that stand for them, with a multipath attribute malformed only behind a known interface |
| RouteAttributes.AddAttribute | libipsec/tests/unit/test_route_netlink.c:25-53 | the encoder appends one zero-padded attribute exactly if its length and the message fit |
| RouteAttributes.AddAttributes | libipsec/tests/unit/test_route_netlink.c:25-53 | repeated calls succeed exactly if every attribute has a length and all of them fit, and write the stream of those attributes |
| RouteAttributes.WriteAndParse | libipsec/tests/unit/test_route_netlink.c:25-53 | what the encoder writes, multipath attributes included, the parser reads back |

## Left out

- Callbacks with a `void *` for their data are functions from the data to the new data; NULL arguments, and a missing
  event or response callback, are not modelled.
- Secure wiping of buffers and secrets.
- Sockets, `poll`, clocks and deadlines, signals, `inet_pton` and `if_indextoname`: their outcomes are inputs.  A timeout
  can happen at any time.
- The allocator: a reallocation may fail at any time, and the collectors are given the number of those that succeed.
- `StartNativeAppConnection`, the credentials and `BuildNativeAppAlgorithmConfig` may fail in any way; what they send is
  not modelled.
- The daemon behind a `Host` answers queries truthfully: a round without an error shows the test connection exactly if
  an SA of it is there.
- Datagrams of earlier runs: READY, RESULT and DONE carry the case id only, so safety is stated for one run.
- The socket after a callback refused an event: it stays open with unread packets, and the next command takes them for
  its own; `ViciClient` says what a failed command has sent, and nothing of what is left unread.
- The listener thread's flags and its notification; acceptors are the steps of `AcceptNativeAppPeerConnection`.
- The numbers of states and policies that a case counts are not limited to 32 bits.
- Output: `show.c`, the reports, JSON and CSV; the concrete algorithm tables; the generation of shared keys; the scripts.
- ViciBuffer.BuildNamedPacket: returns the packet's bytes; that it builds them in a caller's buffer is not modelled.
- ViciBuffer.Buffer.Add: a failed call may have appended a part of its element, as in the source; only the old contents
  are promised as a prefix.
- Lifecycle.RunLoop: the other side may bring up an SA by itself while the connection is loaded and as late as the
  unload, so "no SA is left" is promised only if it does not.
- AlgorithmServer.ServeCase: a receive error inside a case leaves the source with an uninitialised line to split; the model
  skips that line.
- AlgorithmSafety.RunBoth: the datagrams that each side receives are fixed beforehand, and the condition that none of them is
  invented is stated of the two histories; the case ids are different and hold no bar.
- Peer.RegisterBoth: the acceptor is modelled with the whole request line at hand, and the registering side with the whole
  answer; a partial line is a failure.
