# libfep, modelled and verified

libfep is a front end processor for terminals. The server, `fep`, sits between the real terminal and
the pty of a child process. Clients connect to its control socket, are asked about every key typed,
may take it or decline it, and can show text or send data to the child.

The project has two halves.

**The control protocol.** `Codec.dfy` is the byte form of a control message with the reader and writer
loops over a socket (`Sockets.dfy`) that cuts transfers short at will. `Lists.dfy` is the linked queue.
`Client.dfy` is the client object and its dispatch loop, `Server.dfy` the server's request, wait and
flush. `Protocol.dfy` puts the server and up to ten clients together as a system of processes with
byte channels between them, where a client may go at any moment; `Delivery.dfy` is the invariant of
all its runs, `Runs.dfy` what follows for messages, keys and the bytes of the pty, `Arrivals.dfy` how
often each key arrives there, `Requests.dfy` what each client is told of keys and window changes,
`Progress.dfy` that the protocol takes finitely many steps by itself and `Rest.dfy` when it then comes
to rest and when it hangs, `Histories.dfy` that the histories are what the steps bring and that any
inputs can be served, and `Refinement.dfy` that in any interleaving the steps of the system write, read
and dispatch what the loops of the two programs do.
`ClientTable.dfy` is the table of connections, `Scenarios.dfy` a collection of concrete inputs and runs.

**The text layer.** `Csi.dfy` is the scanner, parser and printer of control sequences (section 5.4 of
ECMA-48), `Keys.dfy` the decoding and encoding of keys and the cutting of terminal input into keys,
`Strings.dfy` the growing buffer, splitting and joining, `Numbers.dfy` decimal numbers, `Sgr.dfy`
graphic rendition (section 8.3.117 of ECMA-48), `PtySplit.dfy` the cut of the child's output behind the
last clear sequence. `Terminal.dfy` is an independent terminal that reads bytes one at a time;
`Output.dfy` proves that what the server writes makes it show what the server believes it shows.

C strings and buffers are byte sequences, a pointer into a string is the suffix it points to, and
`NULL` results are `None`. `char` is signed where that matters (the length words of the codec).

## Where the code does less than it might seem to

Each of these is proved: exactly when it happens, for all inputs, by the members named first, and at a
concrete input or run by the one named last.

- A length whose byte in one of the three low positions is 128 or more is read back as another number
  (`Codec.LengthRoundTrip`), so a message survives exactly when all its lengths do (`Codec.RoundTrip`);
  `Scenarios.Length128`.
- A message that does not survive is never read (`Codec.Garbled`), so the server hangs on it, as it does
  on a request its client cannot read, or on a message cut inside a payload by a client that has gone:
  `Rest.RestExactly` says exactly when. 128 bytes of data are enough, or a key of 128 bytes:
  `Scenarios.LongDataHangs`, `Scenarios.LongKeyHangs`.
- When clients go before a response of theirs is taken, the server writes the key itself, though a client
  may have handled it; the key is never echoed as well (`Runs.DirectExactly`, `Runs.NeverBoth`);
  `Scenarios.TakenAndWritten`.
- A response only says that the client has dealt with the request; whether it took the key is not read. A
  key arrives once for each client that declines it, so also when another has taken it
  (`Arrivals.ArrivedOnce`); `Scenarios.TakenAndDeclined`.
- A function key whose terminal string is not a control sequence of its own is not recognised
  (`Keys.CapRoundTrip`); `Keys.KeypadStringLost`.
- A terminal string that has not exactly the parameters expected gives the code -1, which spoils every
  sequence it is printed in (`Output.SetIgnored`); `Scenarios.NegativeCode`.
- A stream that ends inside a payload makes the reader loop for ever at end of file
  (`Codec.CutMessage`), and an unknown command byte ends the process; `Scenarios.CutStreams`.
- Attributes cross the wire unchanged only if every field is below 256 (`Codec.AttributeRoundTrip`);
  `Scenarios.Attribute256`.
- Removing a client moves bytes, not entries (`ClientTable.RemovalExact`); `ClientTable.RemovalExample`.
- Delete is encoded like a cursor key but has no final byte (`Keys.CursorRoundTrip`); the Meta bit of a
  single byte is not encoded (`Keys.ByteRoundTrip`); `Scenarios.DeleteAndMeta`.
- The text attributes read from SGR parameters are mostly not those written (`Sgr.TextBitsRoundTrip`);
  `Sgr.UnderlineLost`.
- A text with an attribute of no type loses what precedes the range (`Output.StyledTextWhole`);
  `Scenarios.UntypedText`.

## Model

| member | source | states |
|---|---|---|
| Runs.EveryMessageOnce | fep/control.c:253-330 | in every reachable state of any number of clients, gone ones included, the messages of a client dispatched so far followed by those held, in the channel and queued are exactly those it raised, in order |
| Runs.OneRequestAtATime | libfep/client.c:404-422 | requests sent to a client minus responses taken from it is 0 or 1, and for a connected one 1 exactly while the server writes the request or waits; the server gives up on a response only when the client has gone |
| Runs.DeclinedKeysInOrder | libfep/client.c:278-321 | a client is asked about the keys typed since it joined, in order, none left out until it goes, and has answered all but perhaps the last; data dispatched and data pending are exactly the declined keys in typing order |
| Runs.DirectExactly | fep/fep.c:397-434 | the server writes a finished key to the pty itself, once and in typing order, exactly when no client's response to it was taken |
| Runs.LiveClientServes | fep/fep.c:412-434 | no key finished since a still connected client joined is written by the server itself |
| Runs.NeverBoth | fep/fep.c:412-434 | even with clients that go at any moment, no key is both written by the server and echoed: the echoes dispatched are of keys whose responses were taken |
| Runs.NoClientPassThrough | fep/fep.c:380-435 | with no client the pty receives the finished keys in order, and at rest exactly the bytes read from the terminal |
| Runs.ClientWrites | fep/control.c:146-194 | in every reachable state, for each connected client and other clients left aside, the bytes of the pty, followed by what pending messages will write, are the keys from before it joined that nobody took and then what the messages it raised write, in order |
| Runs.ClientAtRest | fep/fep.c:397-434 | at rest nothing of a client is pending; among what its messages wrote are the echoes of exactly the keys it declined, and it has answered every key since it joined |
| Runs.OnlyClient | fep/fep.c:397-434 | with one client, and none before it, that is all the pty has received, and the keys from before it joined are all of them |
| Runs.DeclinedKeysAtRest | libfep/client.c:318-320 | so for a program that sends no text, data or keys, its messages wrote exactly the declined keys, in typing order |
| Runs.TextAtRest | fep/control.c:151-156 | at rest, for a program that commits text and raises nothing else, its messages wrote, in the order raised, the conversion of each text that converts, nothing for one that does not, and among these the bytes of exactly the keys declined |
| Requests.EveryEventTold | fep/fep.c:168-199 | after any run from the start the requests made of a client are those for the keys typed and the window changes in the steps behind its joining, interleaved as they happened; none is left out until it goes, but those the server has not come to with it |
| Requests.EveryEventAnswered | fep/fep.c:388-431 | and at rest a connected client has answered a request for every such key and window change, in that order |
| Requests.StepTold | fep/fep.c:388-431 | every step keeps this for all clients at once |
| Histories.InputOfRun | fep/fep.c:380-435 | after any run from the start the input is what the steps read from the terminal, the keys typed are those cut from it, and the clients and those gone are those that joined and closed |
| Histories.ClientOfRun | libfep/client.c:278-360 | and each client has raised exactly the messages its program raises in the steps, in order; its answers carry the verdicts its filter gives in them, 0 without a filter, one by one about the keys and window changes since it joined |
| Histories.EveryInputServed | fep/fep.c:380-498 | for any keys, window changes, up to ten clients joining and messages raised, in any order and with lengths that survive, there is a run that takes exactly these inputs, ends at rest, and has every client answer every event since it joined |
| Histories.InputsServed | fep/fep.c:380-498 | whatever comes at rest may come, and afterwards the protocol comes to rest again |
| Arrivals.EchoedExact | libfep/client.c:318-320 | the echoes dispatched for a client, even one that has gone, are the bytes of keys it declined, each once and in typing order, and of keys whose responses were taken |
| Arrivals.DataAtRest | libfep/client.c:278-321 | for a client at rest, among any others, whose program raises no data, the data dispatched are the bytes of exactly the keys since it joined to which its verdict was 0 |
| Arrivals.ArrivedExact | fep/fep.c:412-434 | in every reachable state a finished key has reached the pty once if no response to it was taken, otherwise once for each client whose echo of it was dispatched |
| Arrivals.ArrivedAtRest | fep/fep.c:412-434 | at rest a key has arrived once if no response to it was taken, otherwise once for each connected client that declined it and each client gone whose echo got through |
| Arrivals.ArrivedOnce | fep/fep.c:412-434 | at rest, no client having gone, a key has arrived exactly once if and only if there was no client yet or exactly one of those there declined it |
| Arrivals.GoneDelivers | fep/control.c:266-330 | from the moment a client has gone it is settled which of its messages get through: those the server had and those whole in the channel; its echoes among them are of the first keys it declined |
| Runs.RunInv | fep/control.c:253-330 | the invariant of the protocol holds after any run of steps |
| Delivery.StepInv | libfep/client.c:370-425 | every step of the server or a client, partial writes, failures and a client's going included, keeps the invariant |
| Delivery.ReadOk | fep/control.c:266-285 | a message read while waiting is the first in flight; a response is the one awaited, anything else joins those held |
| Delivery.PollOk | fep/fep.c:484-498 | outside a request a message read from a client is never a response |
| Delivery.ReplyOk | libfep/client.c:404-409 | answering a request keeps the order of messages and records the echo of a declined key |
| Delivery.ReadsFirst | libfep/control.c:104-189 | whatever part of a client's bytes has arrived, a message read from them is the first one in flight |
| Progress.NeverStuck | fep/control.c:266-285 | in every reachable state that is not at rest some process can take a step of its own, unless the server waits for a client that cannot read the request, or reads a message that never ends |
| Progress.StepShrinks | fep/control.c:316-330 | every step that is not input from outside shrinks a well-founded measure |
| Progress.EveryRunEnds | fep/fep.c:380-498 | so no endless sequence of states consists of such steps only |
| Rest.RestsOrHangs | fep/fep.c:380-498 | left to itself from any reachable state the protocol ends, whichever steps it takes, at rest or with the server hung |
| Rest.RestExactly | fep/fep.c:380-498 | it ends at rest, every key finished and every client that has gone removed, exactly when connected clients' messages, and the requests if there is a connected client, have lengths that survive and no channel of a client that has gone ends inside a payload; otherwise it ends hung |
| Rest.HangsForEver | fep/control.c:266-285 | a server that hangs, within a request or outside, does so for the rest of every run in which the client it reads from does not go |
| Rest.RequestSurvives | libfep/control.c:155-158 | a request survives exactly when it is about a resize or its key has less than 128 bytes modulo 256 |
| Rest.RunsOut | fep/fep.c:380-498 | from every reachable state some steps of the protocol's own lead to one with none left |
| Rest.EverythingArrives | fep/control.c:253-330 | when everything is carried, whichever steps are taken to the end, each connected client has answered every key since it joined and what its messages and echoes write has reached the pty, in order |
| Rest.DeclinedKeysArrive | libfep/client.c:318-320 | and for a program that raises no text, data or keys, that is exactly the declined keys, in typing order |
| Refinement.ReplyWritesAnswer | libfep/client.c:404-422 | the client's steps for a request leave exactly the bytes its dispatch loop writes |
| Refinement.EventualKept | libfep/client.c:412-422 | partial writes and turning to the next queued message do not change what will have been written |
| Refinement.WaitIsGather | fep/control.c:266-285 | however the steps are interleaved, a whole wait ends with what Gather says of the bytes that arrived: the same messages held, response or failure, and bytes left |
| Refinement.FlushDispatches | fep/control.c:314-328 | the steps of a flush dispatch exactly the messages held, once and in order, before the server turns to the next client |
| Refinement.AskIsWrite | fep/control.c:262-264 | the steps of writing a request end with all of it in the channel, or with the client gone and nothing else done |
| Refinement.RequestFails | fep/control.c:262-264 | a request that cannot be written has no effect and does not count as handled, as Server.Fep.Transceive promises for a failed write |
| Refinement.RequestAsTransceive | fep/control.c:253-330 | from coming to a client to turning to the next, in any interleaving, the request is written whole, and the effects on the pty and whether it counts as handled are what Server.Fep.Transceive promises |
| Codec.LengthRoundTrip | libfep/control.c:155-158 | a length is read back unchanged exactly when no low byte has its top bit set, or all bits above are set too |
| Codec.RoundTrip | libfep/control.c:104-249 | a message of table arity is read back, whatever follows, exactly when all its lengths survive |
| Codec.StreamRoundTrip | libfep/control.c:104-249 | any run of messages comes back in order with nothing left over |
| Codec.DecodeStable | libfep/control.c:141-180 | bytes that arrive later do not change a message already complete |
| Codec.DecodeArrived | libfep/control.c:141-180 | from any arrived part of a run of messages the first one is read, and only if its lengths survive, or none |
| Codec.Garbled | libfep/control.c:155-173 | a message one of whose lengths does not survive is never read, whole or in part, whatever follows it, while fewer bytes arrive than the least garbled length |
| Codec.CutMessage | libfep/control.c:141-173 | a proper prefix of a message is never read as one: at end of file inside a payload the reader loops for ever, otherwise it fails |
| Codec.AttributeRoundTrip | libfep/control.c:340-429 | an attribute crosses the wire exactly when its four fields are below 256 |
| Codec.WordRoundTrip | libfep/control.c:267-309 | a 32-bit argument is read back unchanged |
| Codec.ReadControlMessage | libfep/control.c:104-189 | the read loops, for every way reads are cut short, take from the stream exactly the message its bytes hold |
| Codec.ReadPayload | libfep/control.c:160-173 | the payload loop gathers exactly the bytes of the payload or reports how the stream ended |
| Codec.WriteControlMessage | libfep/control.c:191-249 | the write loops, for every way writes are cut short, send the whole encoding, or fail after a proper prefix |
| Lists.Append | libfep/list.c:22-44 | appending keeps an acyclic chain in append order whose head's `prev` names the last node |
| Lists.AfterPop | libfep/list.c:22-44 | without its first node a queue is a chain that may be appended to exactly when it is empty |
| Lists.WalkChain | libfep/list.c:28-41 | following `next` visits each node once and ends after the last |
| Lists.Drain | libfep/client.c:412-422 | draining by `next` yields the data in the order appended |
| Client.FepClient.Dispatch | libfep/client.c:370-425 | a request makes the client send exactly one response naming it and then all it raised, in order, leaving the queue empty; every failure sends nothing |
| Client.FepClient.CommandKeyEvent | libfep/client.c:278-321 | the filter's messages are queued in order, then the source of the key exactly when the result is 0, and nothing is written |
| Client.FepClient.CommandResizeEvent | libfep/client.c:323-360 | the filter's messages are queued in order and no echo |
| Client.KeyAnswered | libfep/client.c:278-321 | a key is answered by a response naming the command with the filter's verdict on that key, then all the filter raises for it, then the bytes of the key if the verdict is 0; without a filter by an empty result and the bytes |
| Client.ResizeAnswered | libfep/client.c:323-360 | a resize is answered by a response with the filter's verdict on these columns and rows, then all the filter raises for them; without a filter by an empty result alone |
| Client.UnreadableAnswered | libfep/client.c:285-300 | an event whose numbers cannot be read is answered by an empty result and nothing is raised or sent back |
| Client.FepClient.Flush | libfep/client.c:411-422 | the queue is written in order and ends empty |
| Client.FepClient.Raise | libfep/client.c:136-140 | a message is queued while the filter runs and written otherwise |
| Client.FepClient.SetCursorText | libfep/client.c:124-141 | the message for cursor text, with the terminating byte and the given or the empty attribute |
| Client.FepClient.SetStatusText | libfep/client.c:151-168 | the message for status text |
| Client.FepClient.SendText | libfep/client.c:179-193 | the message that sends text |
| Client.FepClient.SendBytes | libfep/client.c:203-217 | the message that sends data |
| Client.FepClient.ForwardKeyEvent | libfep/client.c:227-244 | the message that forwards a key |
| Server.Fep.Transceive | fep/control.c:253-330 | on every exit path the messages that are not the response are dispatched once each, in arrival order, after the wait; the value is 0 exactly for a response naming the request |
| Server.Fep.Await | fep/control.c:266-285 | the wait queues what comes before the first response and stops there |
| Server.Fep.FlushHeld | fep/control.c:316-328 | the queue is dispatched in order to its end |
| Server.Fep.DispatchMessage | fep/control.c:220-251 | each command has its effect on the pty, for every way writes are cut short |
| Server.GatherEncoded | fep/control.c:266-285 | on encoded messages followed by a response the wait holds exactly those messages |
| Server.RequestAnswered | libfep/client.c:404-422 | behind anything sent before, a client's answer makes the server accept the response and leave what the filter raised for later |
| Server.DeclinedKeyEchoed | libfep/client.c:278-321 | what the client adds of its own for a key writes the bytes of the key to the pty when there is no filter or it returns 0, and nothing otherwise |
| Server.TextWritten | fep/output.c:361-381 | a text the client sends is written as its conversion, and one that does not convert not at all |
| Server.ForwardedKey | fep/control.c:176-194 | any key a client forwards is written as the encoder encodes that key and those modifiers |
| Server.ForwardedCursorKey | fep/control.c:176-194 | a cursor key a client forwards reaches the child as bytes that decode to it, with the one modifier kept |
| ClientTable.RemovalExact | fep/control.c:202-212 | the other descriptors stay exactly when the removed one is the last, or the last but one and equal to the last above its low byte |
| ClientTable.MovedBytes | fep/control.c:206-210 | the move is memmove(3) of that many bytes of the table: each byte in its reach is the one an entry further, every other stays |
| ClientTable.RemovalExample | fep/control.c:206-210 | with descriptors 5, 6, 7 removing the first leaves 6 twice and 7 not at all |
| ClientTable.Clients.Remove | fep/control.c:193-217 | a descriptor that failed is looked up and removed as described; an unknown one changes nothing |
| Csi.ScanExact | fep/csi.c:24-84 | the scanner returns true exactly at the leftmost complete wanted sequence |
| Csi.ScanPartial | fep/csi.c:24-84 | it returns false with a pointer exactly when there is no match and the rest of the input is a proper prefix of a sequence |
| Csi.ScanAbsent | fep/csi.c:81-83 | it returns false with no pointer exactly otherwise |
| Csi.ScanStream | fep/csi.c:34-83 | scanning in pieces: a match stays, a cut sequence restarts where it was cut, otherwise the scan goes on with what follows |
| Csi.CsiScan | fep/csi.c:24-84 | the pointer loops compute the scan |
| Csi.FormatParse | fep/csi.c:86-148 | printing a parse gives the bytes consumed exactly when the last one is not 0 |
| Csi.ParseFormat | fep/csi.c:86-148 | parsing a printed sequence, whatever follows, gives it back exactly when its parts are in range and it ends in no 0 |
| Csi.ScannedParses | fep/csi.c:24-139 | what the scanner accepts is parsed in full with the same final byte |
| Csi.ByteKinds | fep/csi.c:54-139 | what each byte is behind an introducer: a parameter byte, an intermediate byte, or the end of the sequence; for the scanner only a final byte ends one |
| Csi.CsiParse | fep/csi.c:86-139 | the pointer loops compute the parse |
| Keys.CursorRoundTrip | fep/key.c:157-308 | of the keys encoded as cursor keys all but Delete decode to themselves, whatever follows, with Shift if set, else Control if set, else nothing |
| Keys.CursorModifier | fep/key.c:266-289 | of two parameters, whatever the first is, the second gives Shift for 2, Control for 5 and nothing otherwise; of one nothing |
| Keys.NoModifier | fep/key.c:277-278 | a second parameter that is no number stops the process |
| Keys.ApplicationRoundTrip | fep/key.c:354-380 | every cursor key but Delete is recognised behind ESC O as behind ESC [, with the modifier, whatever follows |
| Keys.ApplicationFinals | fep/key.c:354-380 | of what parses behind ESC O nothing is recognised but what ends in A, B, C, D, F or H |
| Keys.LowerCaseRoundTrip | fep/key.c:382-404 | the arrow keys are recognised behind ESC o with their last byte in lower case, with the modifier, whatever follows |
| Keys.LowerCaseFinals | fep/key.c:382-404 | of what parses behind ESC o nothing is recognised but what ends in a, b, c or d |
| Keys.CapRoundTrip | fep/key.c:248-422 | a key encoded by a terminal string, whatever it is, decodes to itself exactly when the string is a control sequence introduced by ESC [ that does not end like a cursor key, and no earlier capability is a prefix of it |
| Keys.KeypadStringLost | fep/key.c:342-422 | a function key whose string is ESC O P is encoded by it but not recognised |
| Keys.ByteRoundTrip | fep/key.c:94-155 | encoding the key of a single byte gives the byte less its top bit; the top bit is reported as Meta exactly for control, delete and upper-case bytes, Control exactly for control bytes with no key of their own, Shift exactly for upper-case ones |
| Keys.LetterRoundTrip | fep/key.c:94-264 | the byte of a letter reads back as the letter with Control, or as Tab or Return, or as the upper-case letter with Shift |
| Keys.PrintableRoundTrip | fep/key.c:94-264 | every other printable character is its own byte, which reads back as that key; with Control only four have a byte, which reads back with Control |
| Keys.NamedRoundTrip | fep/key.c:94-264 | Space, Return, Backspace, Escape and Tab have one byte that reads back as the key, with Control kept for Space only |
| Keys.DecodeEscape | fep/key.c:342-422 | the decoder with its table searches computes the specified key |
| Keys.DecodeCursor | fep/key.c:266-308 | the cursor table and the second parameter give key and modifier |
| Keys.EncodeKey | fep/key.c:157-264 | the encoder with its table searches fills the buffer with the specified bytes |
| Keys.CutWhole | fep/fep.c:380-435 | the slices cut from a buffer are not empty, make up the buffer, and each has a key value |
| Keys.CutKeys | fep/fep.c:380-435 | the key loop ends and cuts the buffer as specified, or stops on a bad parameter |
| Keys.KeysComeBack | fep/fep.c:380-435 | any run of keys typed one behind the other, each a cursor key with at most one modifier, a key of a single byte other than Escape, or one with a sequence of the terminal's own, is cut into exactly these keys with their modifiers and bytes |
| Strings.AppendsAmortised | libfep/string.c:24-34 | over any appends the capacity stays below twice the length and all bytes ever moved are at most the capacity |
| Strings.FepString.Append | libfep/string.c:24-34 | the contents grow by the bytes appended and the block as specified |
| Strings.JoinSplit | libfep/string.c:75-136 | joining the pieces gives the string back, less a last delimiter that nothing follows |
| Strings.JoinSplitByte | libfep/string.c:75-136 | with a one-byte delimiter: the string, without its last byte when that is the delimiter |
| Strings.SplitJoin | libfep/string.c:75-136 | splitting a join gives the vector back exactly when no token holds the delimiter and the last is not empty |
| Strings.SplitLength | libfep/string.c:83-99 | the number of tokens is the number of cuts, and one more if something is left |
| Strings.StrSplit | libfep/string.c:75-102 | the vector sized by the counting pass has room for every token and a NULL |
| Strings.StrJoin | libfep/string.c:116-136 | the length counted first is the length of the join |
| Sgr.ResetForgets | fep/sgr.c:64-80 | a parameter 0 forgets everything before it |
| Sgr.ColoursRoundTrip | fep/sgr.c:64-142 | the colours come back exactly when no colour parameter is one of the terminal's codes |
| Sgr.TextBitsRoundTrip | fep/sgr.c:81-102 | for every code table, next to colours that come back, the text bits survive exactly when there are none, or they are underline and bold and bold's code is looked up as such, or bold and its code is taken for standout's |
| Sgr.UnderlineLost | fep/sgr.c:81-82 | underline alone is read back as nothing, whatever the codes |
| Sgr.ExitUndoes | fep/sgr.c:79-102 | after any parameters, entering a text attribute and leaving it again is the same as leaving it, for each attribute whose leaving parameter is not looked up as another code |
| Sgr.EnterShows | fep/sgr.c:79-92 | exactly which codes, entering an attribute, show at all: never that of underline |
| Sgr.OriginalColours | fep/sgr.c:93-98 | after any parameters, each code for original colours takes away the colours it names and nothing else, if it is not looked up as an earlier code |
| Sgr.OthersStay | fep/sgr.c:64-114 | after any parameters, one that is not 0 touches the colours only if it is a code for original colours or a colour parameter, and the text bits only if it is a code for text attributes, 22 or 25 |
| Sgr.TypesAsBits | fep/sgr.c:81-102 | after any parameters, each code for a text attribute, and 22 and 25, sets or clears exactly the bits of the attribute's type number, if it is not looked up as an earlier code |
| Numbers.PrintReadBack | fep/sgr.c:64-76 | a parameter is read back modulo 2^32 as a signed number, and fails exactly from 2^64 on |
| Sgr.ParamsFromAttr | fep/sgr.c:116-142 | the vector of seven slots has room for the parameters and a NULL |
| Sgr.ParamsToAttr | fep/sgr.c:64-114 | the loop folds the parameters, or fails on one that is no number |
| Terminal.ShowSgr | fep/output.c:63-84 | a terminal reading an SGR sequence byte by byte takes exactly its parameters, and none as a reset |
| Output.SetReaches | fep/output.c:63-84 | setting attributes brings the terminal to them exactly when they have no parameters, or only numbers and nothing shown is to be cleared, or they are shown already |
| Output.SetIgnored | fep/output.c:63-84 | with a negative code among them the sequence has no effect at all |
| Output.ApplyShown | fep/output.c:94-109 | from any tracked attribute that the terminal shows, applying one brings the terminal to it, exactly unless a code is negative and something is asked for that is not shown already |
| Output.VisibleIsAll | fep/sgr.c:116-142 | what is tracked is fully shown exactly when each of its text bits has a code |
| Output.Screen.SetAttributes | fep/output.c:63-84 | the bytes written and the attribute tracked |
| Output.Screen.ApplyAttr | fep/output.c:94-109 | the bytes written and the attribute tracked; the terminal fed everything written stays in step |
| Output.FitsUnique | libfep/string.c:172-207 | there is only one length at which the text is cut |
| Output.FitsLongest | libfep/string.c:172-207 | when no width is negative the text kept is the longest prefix that fits |
| Output.WidthConcat | libfep/string.c:172-207 | the width of joined texts is the sum of their widths |
| Output.OneCharacter | libfep/string.c:172-207 | that of one character is its own, and all its bytes are written |
| Output.StrTrunc | libfep/string.c:172-207 | the loop keeps the prefix that fits at every point, and one character more does not |
| Output.StyledShown | fep/output.c:192-234 | the terminal shows exactly the characters of the clipped range under the attribute, or plain if its code is negative, and all others plain, in order |
| Output.StringShown | fep/output.c:166-236 | the same from any tracked attribute, ending plain |
| Output.TextDecorated | fep/output.c:166-236 | from any tracked attribute the terminal shows every byte of every character, in order, those with an index between the ends of the attribute underlined, standing out, bold or blinking as its type says, if its value is not 0 and the terminal has a code, without colours, and all others plain |
| Output.RenderedDecorates | fep/sgr.c:44-62 | the decoration is the one text bit of the attribute's type, exactly when its value is not 0 and the terminal has a code for it |
| Output.StyledTextWhole | fep/output.c:206-234 | the pieces written make up the text exactly when the attribute has a type or the range starts at the first character |
| Output.Screen.StringWithAttribute | fep/output.c:166-236 | the text is cut to the one length that fits and written in its pieces, for every input; the terminal stays in step for text without escapes under a typed attribute or a range from the start |
| PtySplit.FindMatchEnd | fep/fep.c:55-74 | the end of the rightmost occurrence, nothing exactly when there is none |
| PtySplit.SplitChunk | fep/fep.c:454-475 | the chunk is cut behind the last clear sequence of either kind, and none ends later |
| PtySplit.OccurrencesFound | fep/fep.c:62-69 | for a needle that is not empty the positions searched are all occurrences |
| Scenarios.Length128 | libfep/control.c:155-155 | a length of 128, 32768 or 8388608 is read back as one of nearly 4 GB |
| Scenarios.WireFormat | libfep/control.c:191-338 | the bytes on the wire of a key, a resize, a response, data, an attribute and no attribute; the numbers of a client's commands, and of their arguments |
| Scenarios.CursorSequences | fep/key.c:342-422 | the six cursor keys by their bytes behind ESC [ and ESC O, and the four arrows behind ESC o |
| Scenarios.NamedKeys | fep/key.c:67-92 | the keys that go with the names of the terminal's strings |
| Scenarios.CutStreams | libfep/control.c:126-173 | a stream that ends before an announced payload spins at end of file, and an unknown command ends the process |
| Scenarios.Attribute256 | libfep/control.c:340-429 | an attribute that begins at character 256 arrives as one that begins at the first |
| Scenarios.DeleteAndMeta | fep/key.c:94-264 | Delete is encoded without a final byte and not recognised, and 0x81 is encoded as 0x01 |
| Scenarios.NegativeCode | fep/sgr.c:189-195 | with the code -1 for standout the sequence that sets it changes nothing |
| Scenarios.UntypedText | fep/output.c:206-234 | of "ab" under an attribute of no type on the second character only that is written |
| Scenarios.SentDecides | libfep/control.c:155-173 | for any message of a client: the state in which it has been raised is reachable, and every run of the protocol's own steps from it that ends ends hung if some length does not survive, and none does otherwise |
| Scenarios.LongDataHangs | libfep/control.c:155-173 | so 128 bytes of data always make the server hang, and 127 never |
| Scenarios.PressedDecides | fep/fep.c:388-411 | likewise for any buffer that is one key, with a client connected: it always hangs exactly when its bytes number 128 or more, modulo 256 |
| Scenarios.LongKeyHangs | fep/fep.c:388-411 | so an "up" key of 128 bytes always makes the server hang |
| Scenarios.ShortKeyDoesNot | fep/fep.c:388-411 | and the key "a" never does |
| Scenarios.TakenAndWritten | fep/fep.c:412-434 | a reachable state in which a client took a key, but went, and the server wrote the key |
| Scenarios.TakenAndDeclined | fep/fep.c:412-434 | a reachable state, at rest, in which one client took a key, another declined it, and it has arrived |

## Left out

- Sockets, pselect, forkpty, termios, signals, logging, environment and terminfo lookup: calls into the operating system; sockets are byte sequences and terminfo strings are parameters.
- Codec.ReadControlMessage: takes a length word to be read whole, or cut only by the end of the stream; the code fails on a shorter read.
- Codec.WriteControlMessage: takes command bytes and length words to be written whole or refused; the code ignores a short write of a length word.
- Server.Fep.DispatchMessage: takes the single write of a forwarded key to be whole or refused; text shown on the screen does not concern the pty and is modelled in `Output`.
- Codec.ReadPayload: takes a read to return no more than fits the reader's buffer; the code asks for more than that.
- Platforms with unsigned `char` or big-endian words: the signed little-endian case is modelled.
- Filters that call fep_client_dispatch themselves, and programs that use a client from several threads.
- SIGPIPE, for which the server installs no handler: writing to a client that has gone is taken to fail.
- Runs.DeclinedKeysInOrder: takes the right client to be removed from the table when one has gone; the code's bytewise removal, which can lose or double another, is `ClientTable.RemovalExact`.
- Runs.DirectExactly: takes the single write of a key's bytes to the pty to be whole; the code ignores how many of them were written (`fep/fep.c:433`).
- Runs.LiveClientServes: takes the right client to be removed from the table when one has gone, as Runs.DeclinedKeysInOrder does.
- Runs.EveryMessageOnce: takes messages, and what a channel holds, to be under 4 GB (the least garbled length).
- More clients than FEP_MAX_CLIENTS: the protocol accepts no eleventh client, the code does not check.
- Runs.ClientWrites: is about clients that have not gone, each with the others left aside; Runs.EveryMessageOnce and Runs.NeverBoth cover every client.
- Output.ApplyShown: takes the terminal's codes above 0 to be distinct and no colour parameters, and the reset string to reset; other code tables make the emitted parameters ambiguous.
- Output.StringShown: takes the text to contain no escape byte; a text with one is written as it is.
- Tracking the attributes of the child's own output (`fep/output.c:123-147`): its scan is not bounded by the buffer.
- Cursor movement, saved cursors, the status line's position and cursor position reports, which are switched off.
- Sgr.TextBitsRoundTrip: takes the colour parameters not to be codes of the terminal; Sgr.ColoursRoundTrip says what happens otherwise.
- The numbers in a resize event, which are those of the size before the change (`fep/fep.c:175-188`): the protocol treats them as arbitrary.
- Locale conversion: a text is a sequence of characters with bytes and a width, or not decodable.
- `_fep_strsplit` with an empty delimiter, which does not end; all callers pass ";".
- `remove_padding` and `_fep_strsplit_set`: their results are not used.
- Reading the SGR codes from terminfo (`fep/sgr.c:144-205`).
- libfep-glib, the command line tools and `main`: thin wrappers.
