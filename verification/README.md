# BLE gateway and MQTT clients: a verified model

The repository is a gateway between a Bluetooth Low Energy module on a serial line
and an MQTT broker. Three of its parts hold state, branching and arithmetic, and
those are modelled here, each in the form its source has: methods with loops over
arrays and objects, proved against functions, about which the theorems are proved.

**The proxy URL and the options** of the publisher and subscriber clients.
`PercentCoding` is the decoder that edits its buffer in place; `SocksGrammar` the
one-pass URL scanner, the grammar it recognises, and the printer it inverts;
`SocksUrl` the same scanner on pointers, with every allocated block accounted for;
`ClientConfig` the option processor and the validation after it.

**The line publisher.** `PubHandshake` is the disconnect handshake between the main
loop and the network thread as a transition system whose steps are single accesses to
shared variables; `PubLines` is line reassembly in a growing `fgets` buffer.

**The serial pipeline and the central thread.** `Framer` collects HCI events byte by
byte, `Router` sends them to queues, `MessageQueue` is the queue, `Relay` holds the
pipe thread and the forwarding thread with its retries (`Retry`), `HciCommands` the
commands written back, `Pipeline` follows one value through all of them, `Gateway` runs
the loops of the three threads on any number of packets, `ConnTable` is the connection
table with its slave count, and `Central` the scanning and link-up machine.

## Where the code departs from what it promises

Each of these is stated by the lemma or contract named, which also says when the
promise does hold.

- `%40` decodes to `:` (line 810 of `client_shared.c`), not to `@` as line 780 says:
  printing and parsing a proxy URL are inverse if and only if neither user nor
  password holds an `@` (`SocksGrammar.PrintParseRoundTrip`).
- With a user, a bare trailing colon (`u@h:`) is accepted and means port 1080; without
  one, `h:` is refused. Text after a first colon without a user may hold further
  colons; `atoi` then reads its leading digits and ignores the rest
  (`SocksGrammar.PortIsNumber`). Both are part of the grammar that
  `SocksGrammar.SplitIsGrammar` proves equivalent to the scanner.
- A second `--proxy` replaces the pointers of the first without freeing their blocks.
  Nothing is lost if and only if the three fields were null (`SocksUrl.Replace`,
  `SocksUrl.ParseProxies`).
- The publisher's handshake needs more than a message id that is not in use: a line can
  lead to an early disconnect if and only if it reuses the id acknowledged last while
  connected (`PubHandshake.DisconnectsAreSafe`, `PubHandshake.OnlyReuseDoesHarm`). With
  nothing published no disconnect is ever requested.
- Line 403 of `pub_client.c` advances by 1023 whatever the previous read filled. A
  line that does not fit a buffer that has already grown to length B is published as
  its first 1023 characters and whatever follows character B-1
  (`PubLines.ReassemblyIsExact`).
- The framer's 8-bit index makes frames exact only for lengths 1 to 252; length 0
  swallows the next byte (`Framer.LengthIsExact`, `Framer.RoundTrip`). Reception stops
  for good if and only if a packet starts with a run of 02 that is followed by
  anything but 04 (`Framer.StuckExactly`, `Framer.ReceptionStops`).
- Opcodes FC06 and FC21 in bytes 6 and 7 swallow any vendor event (`Router.ChainIsTable`). The
  destination of a packet depends on what earlier packets left behind if and only if
  it is shorter than its rule needs (`Router.LeftoversDoNotMatter`).
- A relayed message of fewer than three bytes gives its command a wrong length byte, and
  the outgoing stream can then not be cut apart
  (`HciCommands.StreamIsSelfDelimiting`); a write request whose attribute header
  declares one byte too few causes one (`Pipeline.ShortHeaderBreaksStream`).
- A prepared write (event 0516) is repacked like a notification, with its attribute handle
  in front of the value, and causes no command at all
  (`Pipeline.PreparedWriteIsRepacked`, `Pipeline.OtherIsNotForwarded`).
- `Notify_data` ignores the connection it is called for: every command of a fan-out names
  connection 0 (`Relay.AttemptsNameConnectionZero`).
- Connecting does not touch the slave count, so nothing is relayed to other
  connections until some link has ended (`Pipeline.RelayFollowsTheTable`); the count is
  right if and only if no counted entry became active since
  (`ConnTable.CountNeverExceeds`).
- A configuration line that leaves its last option without a value is refused, although
  the same words on the command line may be accepted (`ClientConfig.FileIsAccepted`,
  `ClientConfig.DanglingLineDiffers`).
- `ble_status` is unsigned, so its comparison with -1 (line 710 of
  `CentralModeThread.c`) is never true: packets that are neither a match nor the end of
  the scan are waited out (`Central.ErrorsAreWaitedOut`).

## Model

| member | source | states |
|---|---|---|
| `PercentCoding.CloseGap` | mosquitto_client/client_shared.c:797-800 | The inner shifting loop moves the tail left by two, leaves everything before it alone and terminates the text |
| `PercentCoding.ReplaceEscape` | mosquitto_client/client_shared.c:791-818 | The `%` branch succeeds exactly on one of the four escapes, writes the decoded character and closes the gap; otherwise the buffer is untouched |
| `PercentCoding.DecodeAt` | mosquitto_client/client_shared.c:789-819 | One turn of the shrinking loop keeps the cut between decoded text and unread text; a failing return leaves the buffer at that cut |
| `PercentCoding.UrlDecode` | mosquitto_client/client_shared.c:781-822 | The in-place decoder refines a left-to-right recursive one: return code and whole resulting text, null pointer included, all accesses inside the buffer, nothing decoded twice |
| `PercentCoding.DecodeSucceeds` | mosquitto_client/client_shared.c:789-821 | Decoding succeeds if and only if every `%` starts a recognised escape, and then the text is two characters shorter per escape |
| `PercentCoding.DecodesExactly` | mosquitto_client/client_shared.c:780-822 | A text decodes to t if and only if it spells t: each character as itself unless it is `%`, or as one of its escapes in either case, with `%40` for `:` |
| `PercentCoding.AgreesWithComment` | mosquitto_client/client_shared.c:780-811 | Where decoding succeeds, the code does what its comment says if and only if the text holds no `%40` |
| `PercentCoding.DecodeEncode` | mosquitto_client/client_shared.c:780-822 | Decoding percent-encoded text gives the text back with each `@` replaced by whatever the decoder writes for `%40` |
| `PercentCoding.RoundTrip` | mosquitto_client/client_shared.c:780-822 | Decoder undoes encoder if and only if the text has no `@`; with line 810 corrected it would on all text |
| `PercentCoding.DecodedHasNoNul` | mosquitto_client/client_shared.c:789-819 | Decoding never produces a terminator inside the text |
| `CStrings.AtoiDecimal` | mosquitto_client/client_shared.c:948-949 | Reading a port with atoi undoes printing it in decimal |
| `CStrings.AtoiReads` | mosquitto_client/client_shared.c:948-949 | atoi reads white space, a sign and digits with any zeros in front, up to the first other character, whatever follows |
| `CStrings.AtoiReadsNothing` | mosquitto_client/client_shared.c:948-949 | Without a digit in that place it reads 0 |
| `SocksGrammar.SplitSound` | mosquitto_client/client_shared.c:849-939 | Whatever the one-pass scanner returns is derived by the declarative URL grammar |
| `SocksGrammar.SplitComplete` | mosquitto_client/client_shared.c:849-939 | Whatever the grammar derives, the scanner returns, with exactly those slices |
| `SocksGrammar.SplitIsGrammar` | mosquitto_client/client_shared.c:849-939 | The scanner returns parts p for s if and only if the grammar derives s from p |
| `SocksGrammar.GrammarIsUnambiguous` | mosquitto_client/client_shared.c:842-847 | No URL can be read in two ways |
| `SocksGrammar.ParserAccepts` | mosquitto_client/client_shared.c:835-961 | A URL is accepted if and only if it has the scheme and a derivation whose user and password decode and whose port is in range |
| `SocksGrammar.PortIsNumber` | mosquitto_client/client_shared.c:947-956 | A port is the number its text starts with, whatever follows the digits: the URL is accepted, with that port, if and only if the number is 1 to 65535 |
| `SocksGrammar.HostAndPort` | mosquitto_client/client_shared.c:947-956 | In particular behind a host without a user, where more colons may follow the digits |
| `SocksGrammar.ParsePrinted` | mosquitto_client/client_shared.c:835-961 | Parsing a printed proxy gives user, password, host and port back, with each `@` of user and password turned into `:`; the port may be left to its default 1080 |
| `SocksGrammar.PrintParseRoundTrip` | mosquitto_client/client_shared.c:835-961 | Printer and parser undo each other if and only if neither user nor password holds an `@` |
| `SocksUrl.Segments.Segment` | mosquitto_client/client_shared.c:864-867 | A new block that holds the text between two positions, terminated |
| `SocksUrl.Segments.Colon` | mosquitto_client/client_shared.c:851-875 | A `:` takes the scanner's step; no block still held is overwritten or lost |
| `SocksUrl.Segments.At` | mosquitto_client/client_shared.c:876-905 | A `@` takes the scanner's step; no block still held is overwritten or lost |
| `SocksUrl.Segments.Character` | mosquitto_client/client_shared.c:850-906 | One character of the loop keeps conservation: live blocks are those at entry plus those held, each by one variable |
| `SocksUrl.Segments.Remainder` | mosquitto_client/client_shared.c:909-939 | The remainder becomes host or port as the grammar says, with the same conservation |
| `SocksUrl.Segments.Cleanup` | mosquitto_client/client_shared.c:964-970 | Frees every block still held exactly once: the live blocks are those at entry |
| `SocksUrl.Segments.Scan` | mosquitto_client/client_shared.c:848-939 | The loop succeeds if and only if the grammar derives the text, and then each variable holds its slice |
| `SocksUrl.Segments.DecodeAuth` | mosquitto_client/client_shared.c:941-946 | User and password are decoded in place; false exactly if one does not decode |
| `SocksUrl.Segments.TakePort` | mosquitto_client/client_shared.c:947-956 | The port number or 1080; its text is freed exactly when the number is in range |
| `SocksUrl.Segments.Parse` | mosquitto_client/client_shared.c:839-970 | The whole body: result, text of each field, and on every path conservation of the allocated blocks |
| `SocksUrl.ParseSocksUrl` | mosquitto_client/client_shared.c:824-971 | On failure heap and configuration are as before; on success the three fields hold the decoded parts in distinct new blocks, the only ones left over |
| `SocksUrl.Replace` | mosquitto_client/client_shared.c:958-961 | With fields set already, the blocks they held stay live and no field holds them; nothing is lost if and only if all three fields were null |
| `SocksUrl.ParseProxies` | mosquitto_client/client_shared.c:461-472 | Any number of --proxy options: no block is lost if and only if none was accepted before the first refusal, or one was and it found the fields null |
| `ClientConfig.Width` | mosquitto_client/client_shared.c:250-262 | An option takes up one or two arguments and never runs past the vector |
| `ClientConfig.MosqConfig.LineProc` | mosquitto_client/client_shared.c:250-647 | The option loop computes the recursive fold of the options, with the same return code, on failures too |
| `ClientConfig.MosqConfig.LoadAll` | mosquitto_client/client_shared.c:93-247 | Defaults, then each file line, then the command line, then validation, stopping at the first failure |
| `ClientConfig.MosqConfig.LoadClient` | mosquitto_client/client_shared.c:254-643 | The same with the option names of the source |
| `ClientConfig.ProcessComposes` | mosquitto_client/client_shared.c:250-640 | If vector a is accepted, processing a ++ b is processing b from the configuration a left, with the same return code |
| `ClientConfig.CompleteComposes` | mosquitto_client/client_shared.c:250-640 | A vector in which no option lacks its value means the same with more arguments behind it, accepted or refused |
| `ClientConfig.DanglingIsRefused` | mosquitto_client/client_shared.c:256-259 | A vector whose last option lacks its value is refused from every configuration |
| `ClientConfig.LinesAreOneVector` | mosquitto_client/client_shared.c:171-202 | If no line leaves its last option without a value, file lines and then command line give exactly what their words in one vector give, refusals included |
| `ClientConfig.FileIsAccepted` | mosquitto_client/client_shared.c:171-202 | A configuration file is accepted if and only if no line leaves its last option without a value and its words are accepted as one vector, with the same result |
| `ClientConfig.DanglingLineDiffers` | mosquitto_client/client_shared.c:186-192 | Any option without its value, behind any accepted vector: as the end of a line it is refused, in one vector it takes the next word, and the two agree if and only if it would refuse that word as well |
| `ClientConfig.ProxyOk` | mosquitto_client/client_shared.c:461-472 | An accepted proxy has a non-empty host without separators and a port in range |
| `ClientConfig.NetStaysOk` | mosquitto_client/client_shared.c:255-500 | Every network option that is accepted keeps: not both id and prefix, port, keepalive, protocol and proxy in range |
| `ClientConfig.MessageStaysOk` | mosquitto_client/client_shared.c:331-506 | Every message option that is accepted keeps: text set iff mode CMD with its length, file set iff mode FILE, qos in 0..2 |
| `ClientConfig.WillStaysOk` | mosquitto_client/client_shared.c:592-633 | Every will option that is accepted keeps: will qos in 0..2, payload length right, will topic a valid publish topic |
| `ClientConfig.SubStaysOk` | mosquitto_client/client_shared.c:299-562 | Every subscriber option that is accepted keeps the counts equal to the list lengths and every topic and filter valid |
| `ClientConfig.ValueStaysOk` | mosquitto_client/client_shared.c:254-633 | All four invariants survive every accepted option that takes a value |
| `ClientConfig.FlagStaysOk` | mosquitto_client/client_shared.c:317-643 | All four invariants survive every accepted option without a value |
| `ClientConfig.ProcessStaysOk` | mosquitto_client/client_shared.c:250-647 | The invariants survive every accepted vector of options |
| `ClientConfig.LoadIsConsistent` | mosquitto_client/client_shared.c:93-247 | After any successful load the invariants hold, there is a host, a will has a topic, a subscriber has a topic and with a persistent session an id |
| `ClientConfig.OneChoosesMode` | mosquitto_client/client_shared.c:320-515 | Exactly five options choose what is published, and each is accepted only while nothing is chosen |
| `ClientConfig.OneModeOption` | mosquitto_client/client_shared.c:320-515 | Over any accepted vector at most one option chose the mode, and one did if and only if a mode is set |
| `ClientConfig.TopicsAreTheArguments` | mosquitto_client/client_shared.c:523-562 | A subscriber's topics and filters are the arguments of its options, in order |
| `ClientConfig.OneChanges` | mosquitto_client/client_shared.c:254-643 | One accepted option changes the members of its own option as it says and what the configuration says about no other option |
| `ClientConfig.LastOptionWins` | mosquitto_client/client_shared.c:250-647 | After any accepted vector every member is what the last occurrence of its option says, or what it was if the option does not occur: texts, numbers, flags, mode and proxy |
| `ClientConfig.LoadedOptions` | mosquitto_client/client_shared.c:93-247 | After a successful load every member but the host is what file and command line together say last, or its initial value |
| `ClientConfig.LoadIsProcess` | mosquitto_client/client_shared.c:171-247 | A successful load is the options of file and command line as one vector, with the default host filled in |
| `ClientConfig.LoadIsOneVector` | mosquitto_client/client_shared.c:93-247 | A successful load is one vector of options: at most one mode option, topics and filters its arguments in order |
| `ClientConfig.OneAccepted` | mosquitto_client/client_shared.c:254-643 | One option is accepted if and only if it is one of this program, has an argument in range if it takes one, and is not excluded by an earlier mode, id or prefix |
| `ClientConfig.ProcessAccepted` | mosquitto_client/client_shared.c:250-647 | A vector is accepted if and only if all its words are acceptable, at most one chooses what is published, and the client is not both named and prefixed |
| `ClientConfig.LoadAccepted` | mosquitto_client/client_shared.c:93-247 | A load succeeds if and only if no file line dangles, every word of file and command line is acceptable, modes and names do not clash, a will comes with its topic, and a subscriber has a topic and with -c an id of its own |
| `ClientConfig.HelpIsAnswered` | mosquitto_client/client_shared.c:342-343 | Return code 2 if and only if --help comes behind words that are accepted |
| `ClientConfig.DefaultsApply` | mosquitto_client/client_shared.c:37-46 | After a successful load a number that was not given has the default of init_config |
| `ClientConfig.ShortNames` | mosquitto_client/client_shared.c:255-643 | A word of a dash and one letter is the option with that letter, and no other |
| `ClientConfig.LongNames` | mosquitto_client/client_shared.c:255-643 | A longer word is the option with that long name, and no other |
| `PubHandshake.StepKeepsInv` | mosquitto_client/pub_client.c:103-120 | Every step of either thread and of the broker keeps the relation between the message ids, what each program point knows, and that the main thread asks at most once |
| `PubHandshake.StepKeepsSettled` | mosquitto_client/pub_client.c:108-120 | While ids are distinct, every step keeps: whoever asks or is about to ask for a disconnect does so when all is finished, the callback once |
| `PubHandshake.RunKeepsInv` | mosquitto_client/pub_client.c:386-431 | The invariant holds in every state of every interleaving |
| `PubHandshake.CarefulRunSettles` | mosquitto_client/pub_client.c:386-431 | In every interleaving that does not reuse the id acknowledged last while connected, either ids stay distinct and requests tied to the end, or the connection is down early and nobody will ask |
| `PubHandshake.DisconnectsAreSafe` | mosquitto_client/pub_client.c:108-120 | If no line reuses the id acknowledged last while connected: no disconnect is requested before the end of input and the last acknowledgement; at most one by each thread; none if nothing was published |
| `PubHandshake.CallbackAsksExactly` | mosquitto_client/pub_client.c:108-115 | For every acknowledgement, whatever happens meanwhile: by the time its callback is idle again it has requested one disconnect and set disconnect_sent if last_mid was that id at its first step, and requested none otherwise |
| `PubHandshake.LastAckAsks` | mosquitto_client/pub_client.c:411-415 | If the last acknowledgement arrives after line 413, its callback requests the disconnect |
| `PubHandshake.CarefulCallbackAsks` | mosquitto_client/pub_client.c:108-115 | In a careful run a callback requests a disconnect if and only if, at its first step, line 413 has been passed and nothing is left to be acknowledged |
| `PubHandshake.AloneAsks` | mosquitto_client/pub_client.c:386-431 | From any state where the last acknowledgement is in and nobody has asked, the main thread asks after exactly the computed number of its own steps, at most twelve |
| `PubHandshake.QuietStep` | mosquitto_client/pub_client.c:386-431 | Once the last acknowledgement is in, only the steps of the main thread and reconnections change how far it is from asking |
| `PubHandshake.NoWakeupIsLost` | mosquitto_client/pub_client.c:411-420 | However a run goes on after the last acknowledgement, callback and reconnections included, as long as no line follows and the connection is up, a disconnect is requested by the twelfth step of the main thread since the last reconnection |
| `PubHandshake.ReuseDisconnectsEarly` | mosquitto_client/pub_client.c:416-420 | From any reachable state that is connected, publishing under the id acknowledged last lets the main thread disconnect with that message unacknowledged |
| `PubHandshake.OnlyReuseDoesHarm` | mosquitto_client/pub_client.c:108-120 | A line published at any point of a careful run keeps every careful continuation safe if and only if it does not reuse the id acknowledged last while connected |
| `PubHandshake.ReuseCanHappen` | mosquitto_client/pub_client.c:386-431 | A run that reaches such a state within the rules for message ids |
| `PubLines.Input.Fgets` | mosquitto_client/pub_client.c:391 | What fgets takes and stores, and when the end-of-file flag is set |
| `PubLines.LinePublisher.Piece` | mosquitto_client/pub_client.c:391-410 | One read: either the line is complete and published, or the buffer has grown with what was read in place; `pos + read_len <= buf_len` at every read |
| `PubLines.LinePublisher.Turn` | mosquitto_client/pub_client.c:388-415 | One turn publishes the first line (or what the growing buffer makes of it) and leaves the rest, or notices the end of the input and publishes nothing |
| `PubLines.LinePublisher.PublishAll` | mosquitto_client/pub_client.c:386-431 | Over a whole input, the published payloads are the message sequence, in order; an unterminated tail is not published |
| `PubLines.MessageIsLine` | mosquitto_client/pub_client.c:400-405 | A line is published unchanged if and only if it fits the buffer or the buffer still has its first length |
| `PubLines.ReassemblyIsExact` | mosquitto_client/pub_client.c:388-415 | The messages are the newline-terminated lines if and only if every line meets that condition |
| `PubLines.ShortLinesAreExact` | mosquitto_client/pub_client.c:388-415 | In particular on every input without a line of more than 1022 characters |
| `PubLines.SecondLongLineIsCut` | mosquitto_client/pub_client.c:400-405 | A line of 1023 characters followed by one of 2047: the second is published without its second half |
| `Framer.Receiver.OnByte` | BLE_Scanner/src/UartCmdRxThread.c:79-117 | The per-byte switch is the step function, buffer, index, count and state included |
| `Framer.Receiver.Receive` | BLE_Scanner/src/UartCmdRxThread.c:68-295 | The receive loop over an input delivers what the step function folded over it delivers |
| `Framer.MidStep` | BLE_Scanner/src/UartCmdRxThread.c:82-114 | Inside a packet, index, count and stored bytes are tied to the position and the declared length after every byte |
| `Framer.FramerIsParser` | BLE_Scanner/src/UartCmdRxThread.c:79-290 | On every stream and every leftover buffer, the byte machine delivers exactly the packets of a parser that sees the whole stream |
| `Framer.ErrorIsFinal` | BLE_Scanner/src/UartCmdRxThread.c:96-98 | In STATE_ERROR nothing is ever received again |
| `Framer.FeedEvent` | BLE_Scanner/src/UartCmdRxThread.c:79-290 | One event of length 1 to 252 is delivered whole and the machine is idle again |
| `Framer.FeedSplits` | BLE_Scanner/src/UartCmdRxThread.c:68-295 | Receiving a stream in two parts is receiving it in one |
| `Framer.RoundTrip` | BLE_Scanner/src/UartCmdRxThread.c:79-290 | Any sequence of well-formed events with noise other than 02 and 04 between them is given back byte for byte in order if and only if every declared length is 1 to 252; it then ends idle with index 0 |
| `Framer.LengthIsExact` | BLE_Scanner/src/UartCmdRxThread.c:49-117 | The packet delivered for an event is the event if and only if its declared length is 1 to 252 |
| `Framer.StuckExactly` | BLE_Scanner/src/UartCmdRxThread.c:79-117 | After any stream, over any leftovers, the machine is in STATE_ERROR if and only if some packet of the stream starts with a run of 02 followed by anything but 04 |
| `Framer.ReceptionStops` | BLE_Scanner/src/UartCmdRxThread.c:79-117 | Nothing more is delivered after a stream, whatever follows, if and only if the stream has such a place |
| `Framer.AsyncSticks` | BLE_Scanner/src/UartCmdRxThread.c:89-98 | In particular a stream that starts with such a run delivers nothing and ends in STATE_ERROR |
| `Router.ChainIsTable` | BLE_Scanner/src/UartCmdRxThread.c:118-286 | The first-match chain equals a table by event code; the second rule for event 0E and the FE06 alternative of line 199 are dead |
| `Router.PipeGets` | BLE_Scanner/src/UartCmdRxThread.c:240-279 | Pipe n gets a packet if and only if it is a notification on connection n, or a write or prepared write to handle 3 on it that looks like neither a command nor a ping; n is at most 3 |
| `Router.PingGets` | BLE_Scanner/src/UartCmdRxThread.c:268-269 | The ping queue gets exactly the writes that look like a ping, except to handles with low byte 5 or 9 |
| `Router.WriteRspGets` | BLE_Scanner/src/UartCmdRxThread.c:171-183 | The write-response queue gets exactly the command statuses of FD92 and FD9B |
| `Router.CommandRespGets` | BLE_Scanner/src/UartCmdRxThread.c:140-266 | The central thread's queue gets exactly the packets listed by event, opcode and field |
| `Router.AcknowledgedExactly` | BLE_Scanner/src/UartCmdRxThread.c:228-281 | Exactly the writes and prepared writes are acknowledged, to their connection, and exactly the terminated-link events end one |
| `Router.NeededIsExact` | BLE_Scanner/src/UartCmdRxThread.c:118-286 | The first n bytes of the buffer fix the destination if and only if n is at least the number of bytes the packet's rule needs |
| `Router.LeftoversDoNotMatter` | BLE_Scanner/src/UartCmdRxThread.c:51-282 | A packet goes to the same place whatever the buffer held before if and only if it is as long as its rule needs, which is never more than 33 bytes |
| `Router.TrafficDoesNotMatter` | BLE_Scanner/src/UartCmdRxThread.c:51-282 | Through the framer: earlier traffic matters for an event if and only if the event is shorter than its rule needs |
| `Router.ShortPacketDepends` | BLE_Scanner/src/UartCmdRxThread.c:256-271 | For instance a one-byte value is queued as a command or for pipe 0, by one byte left behind |
| `HciCommands.LengthsAreRight` | BLE_Scanner/src/CentralModeThread.c:116-222 | Every builder's length byte counts what follows, if and only if a relayed message has at least its three header bytes |
| `HciCommands.RelayLengths` | BLE_Scanner/src/UartCmdRxThread.c:596-674 | For the two relays the computed length byte is right if and only if size is at least 3 |
| `HciCommands.OpcodeIsRight` | BLE_Scanner/src/HCI_Commands.h:46-253 | Every command begins with 01 and its opcode, low byte first |
| `HciCommands.ParametersAreThere` | BLE_Scanner/src/CentralModeThread.c:116-640 | Every parameter that varies is found again in its place: handles, intervals, address, attribute handles and payload |
| `HciCommands.StreamIsSelfDelimiting` | BLE_Scanner/src/CentralModeThread.c:116-640 | A sequence of commands is cut apart by headers and length bytes into exactly those commands if and only if no relayed message in it is shorter than three bytes; otherwise not at all |
| `HciCommands.StreamIsUnambiguous` | BLE_Scanner/src/CentralModeThread.c:116-640 | Two command sequences with the same bytes on the line agree command by command |
| `HciCommands.ShortRelayBreaksStream` | BLE_Scanner/src/UartCmdRxThread.c:596-660 | Either relay, given fewer than three bytes, spoils the stream whatever follows |
| `MessageQueue.Queue.Send` | BLE_Scanner/Drivers/Msg_Def.c:75-86 | Appends a copy of the first size bytes |
| `MessageQueue.Queue.Recv` | BLE_Scanner/Drivers/Msg_Def.c:93-107 | Takes the oldest message; buffer bytes beyond it keep their values |
| `Retry.StopsAtFirst` | BLE_Scanner/src/UartCmdRxThread.c:433-468 | The mobile and ping loops stop at the n-th response if and only if it is the first 00 or 14, or the fourth 16 since the last 04 |
| `Retry.CloudStopsAtFirst` | BLE_Scanner/src/UartCmdRxThread.c:387-425 | The cloud loop, whose increment is commented out, stops at the first 00 or 14 and at nothing else |
| `Retry.AttemptsAreBounded` | BLE_Scanner/src/UartCmdRxThread.c:487-527 | From any retry count: the number of attempts is bounded by the 04 and the unknown responses met |
| `Retry.RetryBound` | BLE_Scanner/src/UartCmdRxThread.c:487-527 | With k responses 04, at most 4(k+1) attempts, and that many responses are enough to stop |
| `Retry.BoundIsTight` | BLE_Scanner/src/UartCmdRxThread.c:487-527 | For every k there is a trace that needs exactly 4(k+1) attempts |
| `Relay.PipeThread.CopyValue` | BLE_Scanner/src/UartCmdRxThread.c:322-338 | The copying loops move the value behind the three-byte header, and nothing when the length is negative |
| `Relay.PipeThread.Turn` | BLE_Scanner/src/UartCmdRxThread.c:308-342 | One message is taken and one sent: connection 0, direction, length and value of the packet, cut short when the declared length is negative |
| `Relay.FanOutCovers` | BLE_Scanner/src/UartCmdRxThread.c:480-530 | A fan-out attempts exactly the active entries other than the sender, ascending and each in one uninterrupted run; one that waits has covered those up to there |
| `Relay.FanOutFollowsResponses` | BLE_Scanner/src/UartCmdRxThread.c:387-527 | In every fan-out the response to an attempt ends the turn of its connection if and only if that attempt is the last one for it; one response is taken per attempt |
| `Relay.OffersFollowResponses` | BLE_Scanner/src/UartCmdRxThread.c:360-530 | The same for every message, with the rule of the cloud loop for cloud messages alone; a ping is attempted only for the connection it names, whatever the table says |
| `Relay.Forwarder.Append` | BLE_Scanner/src/UartCmdRxThread.c:659-662 | The payload of a relayed message is copied behind the command's header |
| `Relay.Forwarder.NotifyData` | BLE_Scanner/src/UartCmdRxThread.c:637-674 | Writes the notification command of the message, the same for every connection asked for |
| `Relay.Forwarder.GattWriteValue` | BLE_Scanner/src/UartCmdRxThread.c:596-635 | Writes the write command of the message for connection 0 |
| `Relay.Forwarder.Offer` | BLE_Scanner/src/UartCmdRxThread.c:485-527 | A retry loop makes exactly the attempts its responses call for, each writing the same command |
| `Relay.Forwarder.OfferAll` | BLE_Scanner/src/UartCmdRxThread.c:482-530 | The loop over the table is the fan-out, and writes one command per attempt |
| `Relay.Forwarder.Turn` | BLE_Scanner/src/UartCmdRxThread.c:360-533 | One turn: direct commands of a slave's message, then the cloud, ping or mobile attempts, with everything that is written |
| `Relay.AttemptsNameConnectionZero` | BLE_Scanner/src/UartCmdRxThread.c:637-657 | After any fan-out, each command written names the connection its attempt was for if and only if connection 0 is the only one whose turn came; if all responses come, the only active one besides the sender |
| `Pipeline.WriteIsRouted` | BLE_Scanner/src/UartCmdRxThread.c:256-281 | A write request of any value up to 87 bytes is framed whole and goes to pipe 0 if and only if it is not diverted as a command or a ping |
| `Pipeline.WriteIsRepacked` | BLE_Scanner/src/UartCmdRxThread.c:311-341 | The pipe thread forwards exactly its value and its length |
| `Pipeline.WriteIsForwarded` | BLE_Scanner/src/UartCmdRxThread.c:473-478 | Both commands written end in the value and count it in their length byte |
| `Pipeline.NotificationIsRouted` | BLE_Scanner/src/UartCmdRxThread.c:240-254 | A notification of any value up to 89 bytes on connection 0 is framed whole and goes to pipe 0 and nowhere else |
| `Pipeline.PreparedWriteIsRouted` | BLE_Scanner/src/UartCmdRxThread.c:256-281 | A prepared write is routed like a write |
| `Pipeline.OtherIsRepacked` | BLE_Scanner/src/UartCmdRxThread.c:328-341 | Every packet that is not a write request is repacked as direction 0, the length and exactly the bytes declared from byte 11 on, over any leftovers |
| `Pipeline.PreparedWriteIsRepacked` | BLE_Scanner/src/UartCmdRxThread.c:328-341 | So a prepared write keeps its attribute handle in front of the value |
| `Pipeline.OtherIsNotForwarded` | BLE_Scanner/src/UartCmdRxThread.c:469-530 | What is passed on as direction 0 causes no command |
| `Pipeline.PayloadIsConserved` | BLE_Scanner/src/UartCmdRxThread.c:256-674 | End to end: every value of 2 to 87 bytes not beginning with 01 or PB passes framer, router, queue, pipe and forwarder and ends both commands unchanged |
| `Pipeline.ShortHeaderBreaksStream` | BLE_Scanner/src/UartCmdRxThread.c:311-342 | The commands a write request causes can be cut apart if and only if its attribute header declares at least an empty value |
| `Pipeline.RelayFollowsTheTable` | BLE_Scanner/src/UartCmdRxThread.c:360-698 | After any history of connections, a relayed message that gets its responses is attempted for exactly the active connections other than its sender if the slave count is positive and for nobody otherwise; for nobody until the first link has ended |
| `Gateway.ReceiveLoop` | BLE_Scanner/src/UartCmdRxThread.c:68-295 | The receive loop over any input queues for pipe 0 exactly the packets the router has for it, in order |
| `Gateway.PipeLoop` | BLE_Scanner/src/UartCmdRxThread.c:308-342 | The pipe thread empties its queue and passes on every message repacked, over what the last one left in its buffer |
| `Gateway.ForwardLoop` | BLE_Scanner/src/UartCmdRxThread.c:360-533 | The forwarding thread writes what each message in turn calls for, until the queue is empty or a response does not come |
| `Gateway.RequestsAreQueued` | BLE_Scanner/src/UartCmdRxThread.c:79-282 | Any mixture of write requests, prepared writes and notifications with noise between them reaches pipe 0 whole and in order |
| `Gateway.ValuesAreRepacked` | BLE_Scanner/src/UartCmdRxThread.c:308-342 | The pipe thread makes of them exactly their messages, in order, each by the rule of its kind, whatever its buffer held |
| `Gateway.ValuesAreForwarded` | BLE_Scanner/src/UartCmdRxThread.c:360-533 | The forwarding thread writes for each value of a write request in order its two commands and one notification per attempt, and nothing for the others, whatever its buffer held |
| `Gateway.CommandsCarryValues` | BLE_Scanner/src/UartCmdRxThread.c:596-674 | Every command written ends in the value of one of the requests and counts it in its length byte |
| `Gateway.RelayedStreamIsCut` | BLE_Scanner/src/UartCmdRxThread.c:596-674 | The stream written can be cut apart into exactly those commands |
| `Gateway.RelayWrites` | BLE_Scanner/src/UartCmdRxThread.c:46-533 | End to end through the three loops: any mixture of write requests, prepared writes and notifications causes exactly the commands of the values written, in order, over any leftovers in any buffer and for any table and responses |
| `ConnTable.Table.UpdateConnStatus` | BLE_Scanner/src/CentralModeThread.c:402-436 | The entry of the handle becomes active, the others stay |
| `ConnTable.Table.DeviceConnCount` | BLE_Scanner/src/CentralModeThread.c:464-477 | The number of active entries among the first four |
| `ConnTable.Table.UpdateDisconnection` | BLE_Scanner/src/UartCmdRxThread.c:676-698 | The slave count becomes the number of active entries among the first five |
| `ConnTable.Table.LinkTerminated` | BLE_Scanner/src/UartCmdRxThread.c:228-238 | The entry becomes inactive and the count is taken again |
| `ConnTable.ActiveAfterUpdate` | BLE_Scanner/src/CentralModeThread.c:402-436 | How the number of active entries changes with any update of one entry |
| `ConnTable.CountTracksTable` | BLE_Scanner/src/UartCmdRxThread.c:676-698 | Over any history the active entries are those counted plus those that became active since the last termination |
| `ConnTable.CountNeverExceeds` | BLE_Scanner/src/UartCmdRxThread.c:676-698 | The count never exceeds the table, and equals it if and only if nothing became active since |
| `ConnTable.NothingCountedAtFirst` | BLE_Scanner/src/UartCmdRxThread.c:676-698 | Until the first termination the count is 0, however many are active |
| `ConnTable.TerminationCounts` | BLE_Scanner/src/UartCmdRxThread.c:228-238 | A termination lowers the total by one exactly when it ends an active counted entry; the two counts differ by at most one |
| `ConnTable.EntryIsLastWord` | BLE_Scanner/src/CentralModeThread.c:402-436 | After any history an entry is active if and only if the last event about its handle is a connection, and holds the address last connected under it |
| `Central.Thread.DeviceScanReq` | BLE_Scanner/src/CentralModeThread.c:787-843 | Scan request and response: what is written, received and returned, on every path |
| `Central.Thread.DeviceScanData` | BLE_Scanner/src/CentralModeThread.c:845-901 | One advertisement: the status, and the address stored exactly on a match |
| `Central.Thread.DeviceScanCancelRsp` | BLE_Scanner/src/CentralModeThread.c:923-945 | The cancel is confirmed exactly by a 0601 event with status 30 |
| `Central.Thread.DeviceEstablishLinkRsp` | BLE_Scanner/src/CentralModeThread.c:224-263 | The link is established exactly by a 0605 event, which gives address and handle |
| `Central.Thread.Pass` | BLE_Scanner/src/CentralModeThread.c:673-783 | One pass through the switch is the transition function, globals and log included |
| `Central.RankGrows` | BLE_Scanner/src/CentralModeThread.c:673-768 | In every run the thread never goes back, except among the three scanning states |
| `Central.AddressIsKept` | BLE_Scanner/src/CentralModeThread.c:693-768 | From the match to the answer of the link request the stored address does not change |
| `Central.TwoReversalsCancel` | BLE_Scanner/src/CentralModeThread.c:209-214 | The link request carries bytes 8 to 13 of the advertisement in the order received |
| `Central.LinkTurn` | BLE_Scanner/src/CentralModeThread.c:743-755 | A link is asked for in one state only, for the address held then |
| `Central.LinkRequestsAreJustified` | BLE_Scanner/src/CentralModeThread.c:673-768 | In every run every link request follows a match, then a written cancel, then its confirmation, and names the address of the last match |
| `Central.OneLinkRequest` | BLE_Scanner/src/CentralModeThread.c:743-768 | At most one link request per run is written: any earlier one failed |
| `Central.ScanningDoesNotResume` | BLE_Scanner/src/CentralModeThread.c:693-768 | After a match there is neither a scan request nor another match |
| `Central.ErrorsAreWaitedOut` | BLE_Scanner/src/CentralModeThread.c:693-715 | Over any stretch of a run the thread keeps waiting for advertisements, only receiving, if and only if every packet is neither a match nor the end of the scan: the branch of line 710 is never taken |
| `Central.ScanStarts` | BLE_Scanner/src/CentralModeThread.c:787-843 | In every run a scan is under way exactly after a written request answered by event 067F with opcode FE04 and status 0; otherwise the thread starts over |
| `Central.ScanEnds` | BLE_Scanner/src/CentralModeThread.c:845-901 | A scanning turn ends exactly with the bytes of a match, which give the address, or with event 0601 |
| `Central.CancelIsConfirmed` | BLE_Scanner/src/CentralModeThread.c:923-945 | The cancel is confirmed exactly by the bytes of a 0601 event with status 30 |
| `Central.LinkIsEstablished` | BLE_Scanner/src/CentralModeThread.c:224-263 | The thread is linked exactly by the bytes of a 0605 event, which give handle and address; anything else keeps both |
| `Central.HandleIsFromTheLink` | BLE_Scanner/src/CentralModeThread.c:224-263 | In no other turn of any run does the thread become linked or the handle change |
| `Central.RequestsAreRetried` | BLE_Scanner/src/CentralModeThread.c:717-755 | The cancel and the link request are repeated until they are written |

## Left out

- SocksUrl.ParseSocksUrl: allocations succeed, because what `malloc` returning null does is only handled at one of its calls.
- SocksGrammar.ParserAccepts: `atoi` reads unbounded integers, because out-of-range text is undefined in C.
- ClientConfig.MosqConfig.LineProc: text options are values rather than blocks, so blocks replaced by a repeated option, and the constant assigned as default host, are not tracked; `-M` is reduced modulo 2^32.
- ClientConfig.ProcessComposes: holds for any classification of option names (`Env.option`); `Classify` gives the one of the source in a build with SOCKS and without TLS, PSK and SRV.
- ClientConfig.LoadIsConsistent: the library's topic checks are arbitrary predicates, the two MQTT protocol constants (3 and 4) come from a header that is not part of this model, and file lines arrive split into words.
- PubHandshake.DisconnectsAreSafe: publishing succeeds, acknowledgements arrive in order, and each step is one access to a shared variable; the memory model of the processor is not part of this model.
- PubLines.LinePublisher.Turn: input holds no NUL, `realloc` and publishing succeed, and the buffer length does not overflow.
- Framer.Receiver.Receive: the input is finite; `select`, `read` and sleeps are replaced by the byte sequence. `selectQ` is written and never read.
- Router.ChainIsTable: sends are decision values; only `Pipe_0_Id` is initialised in the source, so what sending to pipes 1 to 3 does is not modelled.
- MessageQueue.Queue.Send: messages have at most the 100 bytes of `mtext`, a precondition; the System V queue accepts every message and delivers in order.
- Relay.PipeThread.Turn: the value its header declares lies inside the 100-byte buffer, and the header is at most three bytes too short, a precondition; beyond that the source copies from outside the buffer.
- Relay.Forwarder.Turn: messages that are sent on have at most 94 bytes, the most its 100-byte command array holds; every write and receive succeeds, a response is its status byte, and the connection table does not change during a fan-out.
- Gateway.RelayWrites: the threads' loops run one after the other until each would wait; the commands of `data_ack`, which the receiving thread writes in between, and the other queues are not part of this run.
- HciCommands.LengthsAreRight: builders are byte sequences; the array that `Device_Establish_Link_Req` declares has 10 elements for the 13 bytes it stores, and the model takes those 13 bytes to be written. `HCIExt_SetlocalSupportedFeatures` hands over 12 bytes of a zeroed array.
- HciCommands.StreamIsSelfDelimiting: `data_led`, whose index is uninitialised, and the constant payloads of `bond`, `passkey` and `notify` are not among the commands.
- ConnTable.Table.LinkTerminated: handles are below 6, the size of the table, here and in `UpdateConnStatus`; the source indexes the array with any handle, and what lies behind it is not modelled. An entry is its address, handle and status; the copy of `Central_ID` is not modelled.
- Central.Thread.Pass: functions that fall off their end are taken to return their `status`; messages come as inputs; states with no incoming transition and everything after `bond()` are left out.
- UART, GPIO, termios, FIFOs, sleeps, the MQTT library and the network: replaced by sequences and nondeterministic events.
- `print_usage`, logging, file loading (`load_stdin`, `load_file`) and the search for the configuration file.
- `LED_Manager`, `SetParamValue` and `sub_client.c`: self-contained and touching none of the properties above.
- `pipe_0000_Thread` and `Forward_MSG_Queue_Thread` are modelled as they are defined; whether `main` starts them is not.
