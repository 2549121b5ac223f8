# libburrow, verified

A Dafny model of the four parts of libburrow that keep state, with proofs about every input
and every run. `dafny verify dfyconfig.toml` checks all of it.

**The streaming JSON parser.** `JsonTables` holds the character classes and the transition
table, `JsonSpec` the parser as a function from one state to the next (every `assert` of the
source is an outcome of its own), and `JsonMachine` the parser as the source has it: an object
with a mode stack in an array and a token buffer that grows by doubling, each method proved
against `JsonSpec`. On that specification are proved the invariant that discharges all
assertions but one (`JsonInvariant`), the exact language (`JsonGrammar`, `JsonSteps`,
`JsonNumbers`, `JsonComplete`, `JsonInversion`, `JsonSound`), print-then-parse (`JsonPrint`),
UTF-16 escapes to UTF-8 (`Unicode`, `JsonEscapes`), callbacks that refuse (`JsonHeard`),
literals under a callback (`JsonLiterals`), comments as white space (`JsonComments`) and the
exact language with them (`JsonLexer`, `JsonWithComments`), the nesting of events
(`JsonNesting`), and which depths the mode stack has room for (`JsonDepth`; `JsonAlike` says
what else of the configuration a step depends on).

The grammar is that of section 2 of RFC 4627 with what the code decides differently: digits
after a decimal point are optional, an exponent directly after a bare `0` is refused, a text
of blanks alone is accepted, unpaired or misordered surrogates are refused, and nesting is at
most `depth`.

**The memory backend.** `Dictionary` is the doubly linked list, `MemoryHeap` and
`MemoryBackend` the accounts of queues of messages built from it, all updated in place;
`MemoryStore` is a small interpreter on nested lists of pairs. `Backend.PerformAll` says that
any session leaves the heap standing for the interpreter's store, with the same callback log.
`MemoryLaws`, `ScanLaws`, `StoreLaws`, `SingleLaws` (commands on one message), `RangeLaws`
(commands on a range), `HonestTimes` and `AssocList` prove what the backend promises of the
interpreter.

**The client.** `Frontend` is the command state machine, as a function and as the class
`Burrow`; the answers of the backend, the finds of the poll and the wishes of the user's
callbacks are parameters, so that a statement about all of them is one about every backend and
every user. `FrontendLaws` proves the command protocol, `FrontendRuns` what each turn of the
loop and each run of it comes to, `RequestLaws` which requests are taken; `PollFds` is the array
of watched descriptors and its compaction.

**Responses.** `MessageAssembly` collects messages from the parser's events, `AssemblyLaws`
says which by reading the events backwards, `Delivery`
composes it with the parser into statements from the text to the user's callbacks
(`DeliveryDepth` on how deep the text may be), and `UserBuffer` is the buffer for bodies sent and received.

## Where the code and its documentation differ

The model follows the code.

- `JSON_parser.h:93-95` means `true`, `false` and `null` to be told with a null value; the code
  runs into `assert(0==1)` when a callback is set: on exactly the texts that hold one
  (`JsonLiterals.StoppedIffLiteral`), for instance `[true]` (`JsonLiterals.TrueStops`). Claims
  about events are therefore about texts without literals.
- `burrow.h:463-473` lets the user go on with `burrow_process` after EAGAIN; the exits at
  `burrow.c:186`, `205` and `208` leave the guard set, so that no later call does anything
  (`FrontendLaws.LeftForGood`); `FrontendLaws.GuardClearIffLoopEnds` says exactly when that
  happens, and `UserWatchedGuardClearIff` what it means for a user who watches the descriptors.
- An event that comes while no command waits for one is only logged as unexpected
  (`burrow.c:245-248`); it may make the client complete a command that was never issued
  (`FrontendLaws.IllegalEventBreaks`) or call a null function (`FrontendLaws.IllegalCallCrashes`).
- `burrow.h:456-462` means a cancellation to complete the command; it completes nothing, and if
  the command has not been handed on yet the next `burrow_process` calls a null function
  (`burrow.c:179`, `FrontendLaws.IllegalCallCrashes`).
- Comments are not white space everywhere: after `1.` and after an exponent's digits a comment
  is refused where a space is not (`JsonComments.PointBeforeComment`), and `[tru/**/]` is
  accepted by a parser without a callback (`JsonComments.LiteralCutShort`).
  `JsonComments.CommentIsSpaceExactly` says where they are.
- Bytes from 128 on reach the parser as negative codes where `char` is signed, and are refused
  (`Delivery.SignedCharsRefuseUtf8`, `Delivery.AccentedNameIsRefused`).
- An update whose ttl ends past the last second of the 32-bit clock tells a wrong time
  (`HonestTimes.InterpretTellsHonestly` exactly when, `HonestTimes.WrappedTimeIsTold` one case).
- A parser takes any depth, but the stack it sets aside is one entry too short from depth 128 on
  (`JsonDepth.ModesFitIff`), and `JSON_parser.h:125-128` promises unlimited nesting for negative
  depths, but the stack is doubled one push too late (`JsonDepth.UnlimitedFitsIff`).

## Model

| member | source | states |
|---|---|---|
| JsonMachine.JsonParser.constructor | libburrow/backends/http/parser/contrib/JSON_PARSER/JSON_parser.c:488-543 | A new parser stands for the initial state: only the bottom mode on the stack, an empty zero-terminated buffer, no events; a depth of 0 becomes 1. |
| JsonMachine.JsonParser.Push | libburrow/backends/http/parser/contrib/JSON_PARSER/JSON_parser.c:367-402 | Pushes a mode on the stack array or refuses just when the stack holds depth + 1 modes; no index leaves the array. |
| JsonMachine.JsonParser.Pop | libburrow/backends/http/parser/contrib/JSON_PARSER/JSON_parser.c:403-415 | Pops exactly when the expected mode is on top, else changes nothing. |
| JsonMachine.JsonParser.Grow | libburrow/backends/http/parser/contrib/JSON_PARSER/JSON_parser.c:545-568 | Doubles the buffer and keeps the bytes in use. |
| JsonMachine.JsonParser.ReserveFor | libburrow/backends/http/parser/contrib/JSON_PARSER/JSON_parser.c:570-580 | Any number of doublings makes room for the asked characters and the zero, and keeps the parser's value. |
| JsonMachine.JsonParser.ParseParseBuffer | libburrow/backends/http/parser/contrib/JSON_PARSER/JSON_parser.c:602-644 | Tells the callback exactly the pending token, stops where the source's assertion about literals stops, refuses if the callback does, and clears the buffer. |
| JsonMachine.JsonParser.AddEscapedChar | libburrow/backends/http/parser/contrib/JSON_PARSER/JSON_parser.c:720-761 | A one-character escape replaces its backslash by its meaning; any other character refuses. |
| JsonMachine.JsonParser.AddCharToBuffer | libburrow/backends/http/parser/contrib/JSON_PARSER/JSON_parser.c:763-782 | The character is stored, dropped or taken as an escape as the mode of reading asks, and count stays below the capacity with a zero after the bytes. |
| JsonMachine.JsonParser.ReadCodeUnit | libburrow/backends/http/parser/contrib/JSON_PARSER/JSON_parser.c:651-683 | Four stored hexadecimal digits give their 16-bit value. |
| JsonMachine.JsonParser.AppendEncoded | libburrow/backends/http/parser/contrib/JSON_PARSER/JSON_parser.c:684-718 | Appends a lead byte and its continuation bytes without leaving the buffer. |
| JsonMachine.JsonParser.DecodeUnicodeChar | libburrow/backends/http/parser/contrib/JSON_PARSER/JSON_parser.c:651-718 | Rewinds six characters (never below the start) and leaves the UTF-8 bytes, a held high surrogate, or a refusal. |
| JsonMachine.JsonParser.Char | libburrow/backends/http/parser/contrib/JSON_PARSER/JSON_parser.c:791-1112 | One character changes stack, buffer and fields exactly as the step of the specification does, keeps the invariant, and stops at an assertion only where the specification says. |
| JsonMachine.JsonParser.Done | libburrow/backends/http/parser/contrib/JSON_PARSER/JSON_parser.c:1114-1124 | The end of the text is accepted exactly outside all containers in the states OK and GO. |
| JsonInvariant.TableFits | libburrow/backends/http/parser/contrib/JSON_PARSER/JSON_parser.c:266-311 | Every entry of the transition table is selected only at places where its action's assertions can hold. |
| JsonInvariant.StepKeepsInv | libburrow/backends/http/parser/contrib/JSON_PARSER/JSON_parser.c:791-1112 | The global invariant survives every character from every state; an assertion fails exactly when a callback has to be told a true, false or null. |
| JsonLiterals.StoppedIffLiteral | libburrow/backends/http/parser/contrib/JSON_PARSER/JSON_parser.c:624-631 | With a callback a text of the grammar within the depth stops at the assertion if and only if it holds a true, false or null, and the events told by then are those before the first one; the converse case is acceptance. |
| JsonLiterals.TrueStops | libburrow/backends/http/parser/contrib/JSON_PARSER/JSON_parser.c:624-631 | The shortest such text, an array that holds true, stops every parser with a callback. |
| JsonDepth.ModesFitIff | libburrow/backends/http/parser/contrib/JSON_PARSER/JSON_parser.c:367-472 | No text needs more modes than the stack has room for if and only if the depth is less than 128: the depth-th container is pushed at index depth, and no more than depth entries are set aside. |
| JsonDepth.UnlimitedFitsIff | libburrow/backends/http/parser/contrib/JSON_PARSER/JSON_parser.c:375-401 | With a negative depth no write leaves the stack if and only if no prefix of the text needs more than the 128 modes that it starts with. |
| JsonDepth.UnlimitedOverflows | libburrow/backends/http/parser/contrib/JSON_PARSER/JSON_parser.c:375-401 | The case: 128 opening brackets. |
| JsonDepth.ShortIsUnlimited | libburrow/backends/http/parser/contrib/JSON_PARSER/JSON_parser.c:395-400 | A text shorter than the depth is read as if there were no limit. |
| JsonDepth.BracketsNest | libburrow/backends/http/parser/contrib/JSON_PARSER/JSON_parser.c:395-400 | Nesting up to the depth is taken: n opening brackets leave n + 1 modes on the stack. |
| JsonInvariant.NeedsMet | libburrow/backends/http/parser/contrib/JSON_PARSER/JSON_parser.c:891-1100 | What each action asserts or indexes is there whenever the table selects it. |
| JsonInvariant.RunKeepsInv | libburrow/backends/http/parser/contrib/JSON_PARSER/JSON_parser.c:367-415 | Every state reached by any text satisfies the invariant: modes, token, escape, comment and surrogate flags and buffer agree. |
| JsonInvariant.NeverAbortsUnheard | libburrow/backends/http/parser/contrib/JSON_PARSER/JSON_parser.c:624-631 | Without a callback no text meets a failing assertion. |
| Unicode.EncodedIsUtf8 | libburrow/backends/http/parser/contrib/JSON_PARSER/JSON_parser.c:684-718 | The bit-shifting encoder is UTF-8 as section 3 of RFC 3629 defines it, for every scalar value and length class. |
| Unicode.PairIsScalar | libburrow/backends/http/parser/contrib/JSON_PARSER/JSON_parser.c:646-648 | A surrogate pair decodes to the scalar value of section 2.2 of RFC 2781, above U+FFFF. |
| Unicode.HalvesArePair | libburrow/backends/http/parser/contrib/JSON_PARSER/JSON_parser.c:646-648 | Splitting a scalar value above U+FFFF into halves and joining them gives it back. |
| Unicode.DecodeInvertsUtf8 | libburrow/backends/http/parser/contrib/JSON_PARSER/JSON_parser.c:684-718 | An independent UTF-8 decoder inverts the encoder on every sequence of scalar values. |
| JsonPrint.EscapedScalarsMean | libburrow/backends/http/parser/contrib/JSON_PARSER/JSON_parser.c:843-854 | In the grammar scalar values written as \uXXXX escapes mean exactly their UTF-8 encoding, which an independent decoder turns back into them. |
| JsonEscapes.EscapedScalarsRun | libburrow/backends/http/parser/contrib/JSON_PARSER/JSON_parser.c:651-718 | In every configuration the run over such escapes leaves exactly the UTF-8 encoding in the token buffer. |
| JsonEscapes.LoneLowIsRefused | libburrow/backends/http/parser/contrib/JSON_PARSER/JSON_parser.c:692-704 | A low surrogate that no high one precedes is part of no accepted text. |
| JsonEscapes.HighNeedsLow | libburrow/backends/http/parser/contrib/JSON_PARSER/JSON_parser.c:683-700 | In an accepted text a high surrogate is followed by the escape of a low one. |
| JsonEscapes.EscapesDecode | libburrow/backends/http/parser/contrib/JSON_PARSER/JSON_parser.c:651-718 | Any sequence of escapes: well-formed UTF-16 leaves its scalar values as UTF-8 in the token buffer, anything else is part of no accepted text. |
| JsonComplete.RunDoc | libburrow/backends/http/parser/contrib/JSON_PARSER/JSON_parser.c:791-1124 | Every text of the grammar, nested at most depth, is accepted and its events are told in order. |
| JsonSound.SoundDoc | libburrow/backends/http/parser/contrib/JSON_PARSER/JSON_parser.c:266-311 | Every accepted text is a text of the grammar nested at most depth: a syntax tree is computed from the run. |
| JsonSound.AcceptedIffInGrammar | libburrow/backends/http/parser/contrib/JSON_PARSER/JSON_parser.c:266-311 | Acceptance is membership in an inductively defined grammar, both ways, for every text (section 2 of RFC 4627 with the differences named above). |
| JsonSound.AcceptedEvents | libburrow/backends/http/parser/contrib/JSON_PARSER/JSON_parser.c:602-644 | The events told for an accepted text are those of its syntax tree. |
| JsonWithComments.AcceptedIffInGrammar | libburrow/backends/http/parser/contrib/JSON_PARSER/JSON_parser.c:266-311 | With comments and a callback: a text is accepted if and only if every slash outside strings begins a whole comment not directly after a decimal point or an exponent's digits, and the text with a space for each comment is one of the grammar without literals. |
| JsonWithComments.AcceptedEvents | libburrow/backends/http/parser/contrib/JSON_PARSER/JSON_parser.c:602-644 | And its events are those of that text's syntax tree. |
| JsonWithComments.ReplacedIsHeard | libburrow/backends/http/parser/contrib/JSON_PARSER/JSON_parser.c:924-963 | From every state, replacing all comments by spaces changes neither the verdict nor the events. |
| JsonLexer.StepMatches | libburrow/backends/http/parser/contrib/JSON_PARSER/JSON_parser.c:266-311 | A scanner that knows only strings and the tails of numbers agrees with the control state at every step. |
| JsonNumbers.IntegerOfText | libburrow/backends/http/parser/contrib/JSON_PARSER/JSON_parser.c:609-623 | The decimal conversion of an integer token's text is the number that its sign and digits denote. |
| JsonPrint.PrintMeans | libburrow/backends/http/parser/contrib/JSON_PARSER/JSON_parser.c:965-1102 | Every printable value has a text that means it, with any blanks between tokens. |
| JsonPrint.PrintThenParse | libburrow/backends/http/parser/contrib/JSON_PARSER/JSON_parser.c:965-1102 | Any text that means a value, whatever its blanks and spelling, is accepted and heard as exactly the value's event stream; with manual floats that is claimed of values without floats, as a float is then told with the blanks after it. |
| JsonPrint.CanonicalRoundTrip | libburrow/backends/http/parser/contrib/JSON_PARSER/JSON_parser.c:965-1102 | Printing a container and parsing the text gives its in-order events, strings and integers restored. |
| JsonHeard.RunHeardIsHeardRun | libburrow/backends/http/parser/contrib/JSON_PARSER/JSON_parser.c:602-644 | A callback that refuses an event only cuts off the run that nobody refuses. |
| JsonHeard.AcceptedHeardIff | libburrow/backends/http/parser/contrib/JSON_PARSER/JSON_parser.c:602-644 | A text is accepted under a callback exactly if it is accepted without refusals and the callback welcomes every event. |
| JsonHeard.RefusedIsCut | libburrow/backends/http/parser/contrib/JSON_PARSER/JSON_parser.c:602-644 | What a refused run has told is the shortest part of the whole run's log that the callback refuses. |
| JsonComments.RunComment | libburrow/backends/http/parser/contrib/JSON_PARSER/JSON_parser.c:924-963 | A whole comment ends in the state before it, with the pending token told. |
| JsonComments.RunParallel | libburrow/backends/http/parser/contrib/JSON_PARSER/JSON_parser.c:791-1124 | Parsers that differ only in what they have told accept the same texts and add the same events. |
| JsonComments.CommentIsSpace | libburrow/backends/http/parser/contrib/JSON_PARSER/JSON_parser.c:305-307 | At the places between tokens a comment and a space give the same verdict on every continuation and the same events, except that a manually handled float is told with its trailing blanks. |
| JsonComments.CommentInText | libburrow/backends/http/parser/contrib/JSON_PARSER/JSON_parser.c:305-307 | The same about texts read from the start: a comment in place of a space anywhere between tokens. |
| JsonComments.LiteralCutShort | libburrow/backends/http/parser/contrib/JSON_PARSER/JSON_parser.c:297-304 | Without a callback an array of tru and a comment is accepted; with a space in its place it is not. |
| JsonComments.PointBeforeComment | libburrow/backends/http/parser/contrib/JSON_PARSER/JSON_parser.c:294-308 | With `1.` or `1e5` in an array before its end, a comment is refused and a space accepted. |
| JsonComments.NumberBeforeComment | libburrow/backends/http/parser/contrib/JSON_PARSER/JSON_parser.c:294-308 | The same for every number that ends in its point or in an exponent. |
| JsonComments.CommentIsSpaceExactly | libburrow/backends/http/parser/contrib/JSON_PARSER/JSON_parser.c:305-309 | The states where a comment is as good as a space, for the verdict and for the events, are exactly all but FX, E3 and, unheard, the last letter of a literal. |
| JsonNesting.StepKeepsNest | libburrow/backends/http/parser/contrib/JSON_PARSER/JSON_parser.c:965-1102 | Each step keeps the stack of open containers equal to the brackets told so far, with keys only directly inside objects. |
| JsonNesting.EventsAreNested | libburrow/backends/http/parser/contrib/JSON_PARSER/JSON_parser.c:965-1102 | The events told by any point begin a well bracketed stream; those of an accepted text are one. |
| Dictionary.Dictionary.Add | libburrow/backends/memory/dictionary.c:43-83 | Links a node at the end: the entries grow by one pair at the end. |
| Dictionary.Dictionary.Search | libburrow/backends/memory/dictionary.c:85-116 | Finds the first node with the key, or none; a null key finds none. |
| Dictionary.Dictionary.Unlink | libburrow/backends/memory/dictionary.c:128-142 | Relinking the neighbours of a node takes exactly its entry out and keeps both directions of the list. |
| Dictionary.Dictionary.DeleteNode | libburrow/backends/memory/dictionary.c:119-143 | Removes the first entry with the key and nothing else; a missing key changes nothing. |
| Dictionary.Dictionary.Delete | libburrow/backends/memory/dictionary.c:145-165 | Goes through up to the bound entries from the marker on, or from the front, and removes each by its key, the first with that key; without repeated keys that is the slice itself. |
| Dictionary.Dictionary.Iter | libburrow/backends/memory/dictionary.c:167-199 | A fresh dictionary with the contiguous slice from the marker, or the front, of min(limit, remaining) entries; limit 0 is all. |
| AssocList.PagesReadAll | libburrow/backends/memory/dictionary.c:167-199 | With a limit of at least two, following last-key markers reads the whole dictionary, each entry once, and ends. |
| AssocList.PageOfOneStays | libburrow/backends/memory/dictionary.c:167-199 | With a limit of one, following last-key markers never gets past the first key. |
| MemoryHeap.DropAt | libburrow/backends/memory/memory.c:170-178 | Deleting a message by key takes exactly that message out of the queue that the heap stands for. |
| MemoryHeap.SetTimes | libburrow/backends/memory/memory.c:189-194 | Setting a message's times in place changes just that message of the queue. |
| MemoryHeap.TurnQueue | libburrow/backends/memory/memory.c:167-244 | One turn of the scan loop moves the boundary between what is left and what is to come by one message. |
| MemoryBackend.Backend.Visit | libburrow/backends/memory/memory.c:170-242 | One message: dropped if expired, passed over if hidden, else updated, told or deleted; the queue and the log say so. |
| MemoryBackend.Backend.ScanQueue | libburrow/backends/memory/memory.c:144-250 | The loop over the separate list leaves the queue and the log of the pure scan, although it deletes while it goes. |
| MemoryBackend.Backend.Collapse | libburrow/backends/memory/memory.c:256-269 | Drops exactly the emptied queue and then exactly the emptied account. |
| MemoryBackend.Backend.ScanCommand | libburrow/backends/memory/memory.c:104-272 | A whole scan command refines the interpreter's; every other queue's nodes and messages keep standing for what they did. |
| MemoryBackend.Backend.GetAccounts | libburrow/backends/memory/memory.c:384-416 | Tells the names of the selected accounts in order and changes nothing. |
| MemoryBackend.Backend.GetQueues | libburrow/backends/memory/memory.c:274-314 | Tells the names of the selected queues in order and changes nothing. |
| MemoryBackend.Backend.DeleteQueues | libburrow/backends/memory/memory.c:316-382 | Refines the interpreter's bulk deletion, also when the account goes away on the way, and tells nothing. |
| MemoryBackend.Backend.DeleteAccounts | libburrow/backends/memory/memory.c:418-476 | Refines the interpreter's deletion over the selected accounts. |
| MemoryBackend.Backend.GetMessages | libburrow/backends/memory/memory.c:478-485 | Refines the interpreter's command. |
| MemoryBackend.Backend.UpdateMessages | libburrow/backends/memory/memory.c:487-494 | Refines the interpreter's command. |
| MemoryBackend.Backend.DeleteMessages | libburrow/backends/memory/memory.c:496-503 | Refines the interpreter's command. |
| MemoryBackend.Backend.CreateMessage | libburrow/backends/memory/memory.c:505-579 | The message replaces one with its id in place or is appended, with account and queue made as needed. |
| MemoryBackend.Backend.UpdateMessage | libburrow/backends/memory/memory.c:581-653 | EINVAL if missing; an expired message is dropped silently with what it leaves empty; else updated and told. |
| MemoryBackend.Backend.GetMessage | libburrow/backends/memory/memory.c:655-709 | EINVAL if missing; an expired message is dropped silently; else told as it is. |
| MemoryBackend.Backend.DeleteMessage | libburrow/backends/memory/memory.c:711-763 | A live message is told and dropped, an expired one dropped silently, with what is left empty. |
| MemoryBackend.Backend.Perform | libburrow/backends/memory/memory.c:821-847 | The table of commands: each refines the interpreter's command of its name. |
| MemoryBackend.Backend.PerformAll | libburrow/backends/memory/memory.c:104-762 | After any finite session the linked lists stand for the interpreter's store, and log and statuses are its log and statuses. |
| MemoryLaws.InterpretKeepsTidy | libburrow/backends/memory/memory.c:256-269 | Every command keeps keys unique at each level and leaves no empty queue and no empty account. |
| MemoryLaws.SessionKeepsTidy | libburrow/backends/memory/memory.c:545-576 | So does every session from such a store. |
| MemoryLaws.SessionsAreTidy | libburrow/backends/memory/memory.c:770-800 | A backend starts empty, so after any session at all keys are unique and nothing is empty. |
| ScanLaws.ScanPartition | libburrow/backends/memory/memory.c:144-250 | Every message by its place: outside the slice kept; inside, expired ones gone, hidden ones kept unchanged, the others updated, kept or deleted. |
| ScanLaws.ScanKeepsOrder | libburrow/backends/memory/memory.c:144-250 | A scan never reorders and never adds. |
| ScanLaws.ReportsAre | libburrow/backends/memory/memory.c:196-241 | Exactly the messages acted on are told, each once, in order, as they then stand; a silent deletion tells nothing. |
| ScanLaws.ScanConserves | libburrow/backends/memory/memory.c:144-250 | What is left plus what expired plus what was deleted is what there was. |
| ScanLaws.ToldHonestly | libburrow/backends/memory/memory.c:196-201 | A told difference of times is exact if and only if the message has not expired. |
| ScanLaws.ScanToldHonestly | libburrow/backends/memory/memory.c:189-206 | A scan tells a wrong time if and only if it sets a ttl that is already over on some message that it acts on. |
| HonestTimes.InterpretTellsHonestly | libburrow/backends/memory/memory.c:127-131 | Every command tells exact times if and only if it is not an update whose ttl ends past the clock's last second and which reaches a live message. |
| HonestTimes.SessionTellsHonestly | libburrow/backends/memory/memory.c:127-206 | The same for each command of any session; if no ttl asked for ends past the clock's last second, all times told are exact. |
| HonestTimes.InterpretKeepsFits | libburrow/backends/memory/memory.c:534-542 | Whatever is asked for, stored times stay 32-bit times. |
| HonestTimes.SessionKeepsFits | libburrow/backends/memory/memory.c:534-542 | The same over any session. |
| HonestTimes.WrappedTimeIsTold | libburrow/backends/memory/memory.c:615-645 | The failing case as a command on a store of one message: the update stores a time that is over and tells 2^32 - 1 seconds. |
| StoreLaws.ScanCommandOf | libburrow/backends/memory/memory.c:104-272 | A scan command changes its own queue and no other queue of any account. |
| StoreLaws.DeleteQueuesLeavesHidden | libburrow/backends/memory/memory.c:316-381 | Bulk deletion leaves in each selected queue exactly its live hidden messages and every other queue as it is. |
| StoreLaws.DeleteAccountsLeavesHidden | libburrow/backends/memory/memory.c:418-475 | The same in every queue of the selected accounts. |
| StoreLaws.InterpretKeepsDead | libburrow/backends/memory/memory.c:597-642 | An expired message is told by no command on its queue and brought back by none but its creation. |
| StoreLaws.ExpiredStaysDead | libburrow/backends/memory/memory.c:170-206 | The same over whole sessions with a clock that does not go back. |
| SingleLaws.GetMessageDoes | libburrow/backends/memory/memory.c:655-708 | Message by message of the whole store: EINVAL if missing, an expired one goes untold, a live one is told with the seconds it has left; no other message changes. |
| SingleLaws.UpdateMessageDoes | libburrow/backends/memory/memory.c:581-652 | The same, with the times moved as asked, modulo 2^32 (a zero ttl, and a time that wraps to zero, count as unset), before the message is told. |
| SingleLaws.DeleteMessageDoes | libburrow/backends/memory/memory.c:711-762 | The message goes, told if it was live; a missing one is no error; no other message changes. |
| SingleLaws.CreateMessageDoes | libburrow/backends/memory/memory.c:505-578 | The message is there with its body and its times modulo 2^32, five minutes and unhidden by default; no other message changes. |
| StoreLaws.InterpretKeepsOrder | libburrow/backends/memory/memory.c:256-269 | No command but a creation adds or reorders accounts or queues. |
| StoreLaws.CreationAppends | libburrow/backends/memory/memory.c:545-576 | A creation leaves the order of all keys and puts a new key at the end of its list; the message is then found. |
| RangeLaws.GetQueuesDoes | libburrow/backends/memory/memory.c:274-314 | The store is as it was and the k-th report is the key at the k-th selected place: from the marker's, or the front if it is absent or unknown, as many as the limit or all; a missing account tells nothing. |
| RangeLaws.GetAccountsDoes | libburrow/backends/memory/memory.c:384-416 | The same for the accounts. |
| RangeLaws.GetMessagesDoes | libburrow/backends/memory/memory.c:104-272 | Reading a range takes only its expired messages out of the queue, changes no other queue, and tells its live messages in order, hidden ones only if the filters ask for them. |
| RangeLaws.UpdateMessagesDoes | libburrow/backends/memory/memory.c:104-272 | Updating a range takes out its expired messages, moves ttl and hide of those that match by the attributes given, modulo 2^32, and tells these with the new times; all else stays, in place. |
| RangeLaws.DeleteMessagesDoes | libburrow/backends/memory/memory.c:104-272 | Deleting a range takes out its expired messages and those that match, and tells the latter in order; hidden ones that were not asked for stay. |
| RangeLaws.DeleteQueuesDoes | libburrow/backends/memory/memory.c:316-382 | Of every queue at a selected place exactly the live hidden messages are left; every other queue is as it was; nothing is told. |
| RangeLaws.DeleteAccountsDoes | libburrow/backends/memory/memory.c:418-476 | The same for every queue of the accounts at the selected places. |
| Frontend.Burrow.Issue | libburrow/burrow.c:471-502 | Accepts a command only when idle and complete; else EINPROGRESS or EINVAL with nothing changed (RequestLaws.IssueDoes says which are complete). |
| RequestLaws.IssueDoes | libburrow/burrow.c:471-803 | Argument by argument: EINPROGRESS while a command is in progress; EINVAL exactly if the account, queue, id, body or attributes that the command needs are missing; both leave the client as it is; else the command is taken, and processed at once with automatic processing. |
| RequestLaws.IssueIsInvalidIff | libburrow/burrow.c:505-543 | On an idle client the answer is EINVAL if and only if an argument is missing, and the log gains the acceptance if and only if none is. |
| RequestLaws.BackendCommandsAreTaken | libburrow/burrow.c:505-803 | Every command of the memory backend is let through whatever its filters and optional attributes, but for the two updates, which are EINVAL without attributes. |
| Frontend.Burrow.Cancel | libburrow/burrow.c:269-281 | Forgets the command, its function and the watched descriptors but not the state; nothing when idle. |
| Frontend.Burrow.EventRaised | libburrow/burrow.c:234-267 | Hands the event on and becomes ready, waits on, or cancels, as the backend answers. |
| Frontend.Burrow.TakeTurn | libburrow/burrow.c:175-227 | One turn of the loop is the turn of the specification, with every callback that asks for something while it runs; a command function or process function that is not there makes it crash. |
| Frontend.Burrow.Process | libburrow/burrow.c:164-232 | The loop, recursion guard, early exits and calls of missing functions included, is the run of the specification; a nested call returns EAGAIN and changes nothing. |
| FrontendRuns.AnswerDecides | libburrow/burrow.c:177-201 | A turn in which the backend is asked: any answer but EAGAIN finishes the command; after EAGAIN the client waits with nothing completed, or gives up a backend that cannot go on, with EINVAL; the log and the watched descriptors grow by what the turn brought. |
| FrontendRuns.EventsDecide | libburrow/burrow.c:125-161 | A turn with events: ready if and only if the backend took one, without a command if and only if it failed one; the live descriptors are watched no more. |
| FrontendRuns.CompletionDoes | libburrow/burrow.c:211-220 | A turn that completes: the complete callback's first command that lacks nothing is taken as the next, whatever it asked for before is invalid and after it in progress. |
| FrontendRuns.ProcessReturns | libburrow/burrow.c:164-232 | Over every run of the loop: if it ends, it returns the backend's last answer, which is not EAGAIN; if it is left, the turn it is left in, the result that this turn stands for, and the client as it then is; a nested call is refused with EAGAIN and changes nothing. |
| FrontendRuns.RaiseDoes | libburrow/burrow.c:234-281 | An event and a cancellation, case by case of the backend's answer, with what the client is after it. |
| FrontendLaws.TakenAgrees | libburrow/burrow.c:477-487 | A command that is refused changes nothing; while one is in progress every command is refused with EINPROGRESS. |
| FrontendLaws.AttemptsInProgress | libburrow/burrow.c:168-169 | While a command is in progress whatever the callbacks ask for leaves everything but their answers as it is. |
| FrontendLaws.SessionFollowsProtocol | libburrow/burrow.c:164-283 | Over every session of commands, processing, events and cancellations, and every backend: accepted, handed to the backend, answered other than EAGAIN, completed, one command after the other, and no missing function is ever called; events and cancellations may come wherever they keep this. |
| FrontendLaws.IllegalCallFails | libburrow/burrow.c:164-283 | Each of the others goes wrong: the protocol breaks if an event is taken while no command is with the backend and the backend can go on with a command, and else processing crashes. |
| FrontendLaws.IllegalEventBreaks | libburrow/burrow.c:194-220 | Such an event makes the client complete a command that nobody issued or that the backend never got. |
| FrontendLaws.IllegalCallCrashes | libburrow/burrow.c:177-196 | A command cancelled, or failed by an event, before it is handed on makes processing call a null command function; an event for a backend that cannot go on makes it call a null process function; whatever the world does, nothing more is told. |
| FrontendLaws.IdleMeansAllDone | libburrow/burrow.c:211-220 | When the client is idle each accepted command has been handed over, answered other than EAGAIN and completed exactly once each, over the same sessions. |
| FrontendLaws.GuardClearIffLoopEnds | libburrow/burrow.c:173-231 | When processing returns, its guard is clear if and only if the loop came to no turn in which EAGAIN cannot be acted on, nothing is watched, or the poll fails or times out; the client is then idle. |
| FrontendLaws.UserWatchedGuardClearIff | libburrow/burrow.c:173-231 | For a client whose user watches the descriptors: the guard is clear if and only if no command that the loop hands to the backend is answered EAGAIN, read off the answers and the callbacks' requests alone. |
| FrontendLaws.LeftForGood | libburrow/burrow.c:168-169 | After an exit from inside the loop no later call hands on or completes anything. |
| FrontendLaws.WaitingForTheUserNeverCompletes | libburrow/burrow.c:203-205 | The concrete case: a command that waits for descriptors the user watches gets EAGAIN and never completes. |
| FrontendLaws.LoopEnds | libburrow/burrow.c:173-228 | With a backend that never answers EAGAIN and callbacks that at some point ask for nothing more, the loop ends within two more turns, unless it starts with a cancelled command, when it crashes. |
| PollFds.Watcher.Watch | libburrow/burrow.c:64-95 | Appends the descriptor with the bits asked for and keeps the others, also when the array grows. |
| PollFds.Watcher.Compact | libburrow/burrow.c:125-161 | The swap-with-last loop ends, tells each event, read off an entry's POLLIN and POLLOUT bits, exactly as often as an entry shows it, and leaves in front exactly the entries without a bit raised. |
| PollFds.WantedIsTold | libburrow/burrow.c:64-145 | What was asked for and is raised is told back, for every descriptor and all flags. |
| PollFds.ToldAsShown | libburrow/burrow.c:137-141 | In whatever order the live entries are told, each event is told as often as the list shows it in its bits. |
| PollFds.SplitIs | libburrow/burrow.c:130-159 | Quiet and live entries that together make up a list are the quiet and the live entries of that list, as multisets. |
| MessageAssembly.Assembler.Callback | libburrow/backends/http/json_processing.c:102-283 | Each event changes the collected key, id, body and attributes as the source does and refuses what it refuses. |
| AssemblyLaws.MessagesAre | libburrow/backends/http/json_processing.c:102-242 | Every log of events, read backwards: it is taken if and only if each string stands under id or body, each integer under ttl, hide or no name, and there is no float; each object that ends is told with the last id and body since an object ended, and the last times inside it. |
| AssemblyLaws.RefusedMessages | libburrow/backends/http/json_processing.c:102-242 | A log that is not taken delivers exactly the messages complete before the first event that is not allowed. |
| AssemblyLaws.NamesAre | libburrow/backends/http/json_processing.c:244-279 | A log of names is taken if and only if it holds nothing but arrays and strings, and delivers its strings in order. |
| MessageAssembly.AnswersAreFinal | libburrow/backends/http/json_processing.c:298-338 | Up to the first refusal every shorter log was welcome. |
| Delivery.Feed | libburrow/backends/http/json_processing.c:316-325 | One byte: what the parser tells is what the assembler hears. |
| Delivery.ParseJson | libburrow/backends/http/json_processing.c:298-338 | The feeding loop returns success, EINVAL or the stop at an assertion, and delivers, as the run under the callback does. |
| Delivery.MessagesAreDelivered | libburrow/backends/http/json_processing.c:102-283 | Any text for an array of messages delivers one message per object, in order, with exactly its fields; nothing is carried over. |
| Delivery.MessageIsDelivered | libburrow/backends/http/json_processing.c:102-283 | The same for a single object. |
| Delivery.FlatSucceedsIffKnown | libburrow/backends/http/json_processing.c:174-242 | A response of flat objects succeeds exactly if every field is a known one of the right type; one unknown name or one float makes all of it EINVAL. |
| Delivery.NamesAreDelivered | libburrow/backends/http/json_processing.c:244-279 | A list of queues or accounts is delivered name by name, in order. |
| Delivery.ResponseSucceedsIff | libburrow/backends/http/json_processing.c:298-338 | Any text at all: the response succeeds if and only if, with a space for each comment, it is a text of the grammar whose events the assembler takes. |
| Delivery.TreeIsDelivered | libburrow/backends/http/json_processing.c:298-338 | And then it delivers exactly what the assembler makes of the events of its syntax tree. |
| Delivery.ResponseStopsIff | libburrow/backends/http/json_processing.c:298-338 | A response in the grammar stops at the failed assertion if and only if it holds a true, false or null and the events before the first are taken; the messages complete by then have been delivered. |
| DeliveryDepth.NineteenAndNoMore | libburrow/backends/http/json_processing.c:307-325 | Empty arrays nested in one another are read and deliver nothing if there are at most nineteen, and are EINVAL if there are more. |
| Delivery.SignedCharsRefuseUtf8 | libburrow/backends/http/json_processing.c:316-325 | Where chars are signed a response succeeds if and only if it is plain ASCII and succeeds where they are not; one that succeeds there and is not ASCII is EINVAL. |
| Delivery.AccentedNameIsRefused | libburrow/backends/http/json_processing.c:316-325 | The list of one queue with an accented letter in its name is delivered with unsigned chars and EINVAL with signed ones. |
| UserBuffer.Buffer.constructor | libburrow/backends/http/user_buffer.c:68-91 | A buffer made with data holds them with the cursor at the front; without data it is empty. |
| UserBuffer.Buffer.Write | libburrow/backends/http/user_buffer.c:139-161 | Puts the chunk at the cursor and grows by its size; a filled buffer gets it appended. |
| UserBuffer.Buffer.WriteAll | libburrow/backends/http/user_buffer.c:139-161 | Any sequence of chunks leaves their concatenation, size and cursor at its end. |
| UserBuffer.Buffer.Read | libburrow/backends/http/user_buffer.c:174-192 | Hands out the next bytes, at most as many as asked for, and never passes the end. |
| UserBuffer.Buffer.ReadAll | libburrow/backends/http/user_buffer.c:174-192 | Any sequence of reads hands out the successive pieces of the body. |
| UserBuffer.ReadFromIsSlice | libburrow/backends/http/user_buffer.c:174-192 | The pieces joined are the body from the place on, as far as was asked. |
| UserBuffer.ReadsWholeBodyOnce | libburrow/backends/http/user_buffer.c:174-192 | Reads that ask for as much as the body hand it out exactly once, in order, and then nothing. |
| UserBuffer.PositiveReadsEnd | libburrow/backends/http/user_buffer.c:174-192 | As many reads as the body has bytes hand out all of it, if none asks for nothing. |

## Left out

- Allocation failure: every `malloc` and `realloc` succeeds, and memory is never freed by hand; what the error paths, `free` calls and custom allocators do is not modelled.
- libcurl: URLs, headers and transfers in `curl_backend.c` are foreign code; `curl_easy_unescape` is an uninterpreted function.
- Floating point: a float token is carried as its text; the decimal point of the locale is a parameter, conversion to `double` is not modelled.
- Integer overflow in the parser: `sscanf` on numbers beyond 64 bits is taken as the mathematical integer.
- JsonMachine.JsonParser.constructor: requires a depth below 128. From 128 on the source's stack is one entry too short for its own pushes (JsonDepth.ModesFitIff), so no array can stand for it; with a negative depth, meaning no limit, a write leaves the stack at the 129th mode (JsonDepth.UnlimitedFitsIff), and the parser object is not modelled.
- Frontend.Burrow.EventRaised: what the backend's event handler makes the user's callbacks ask for is not modelled; callbacks ask for things while a command's function, its processing or its completion runs.
- `JSON_parser_reset`, `set_error` codes and `JSON_parser_is_legal_white_space_string`: reuse of a parser and the kind of an error are not modelled; parsers are fresh.
- The clock within one command: `time` is read once per command, so the several scans of a bulk deletion see the same second.
- Null arguments of the dictionary's functions other than a null key, and null accounts, queues or ids inside the memory backend, which the client's checks exclude.
- The managed list in `attributes.c` and the setters of `attributes.c` and `filters.c`: attributes and filters are records with optional fields.
- JsonWithComments.AcceptedIffInGrammar: about parsers with a callback; without one a comment also completes a literal that lacks its last letter (JsonComments.LiteralCutShort).
- MessageAssembly.Assembler.Callback: a body is a sequence; that `json_processing.c:198-206` allocates `body_size` bytes for it and copies one more, the zero after the string, is not modelled.
- FrontendLaws.SessionFollowsProtocol: about sessions whose events and cancellations are legal; IllegalCallFails shows that each of the others goes wrong.
- FrontendLaws.IdleMeansAllDone: about the same sessions.
- Frontend.Burrow.Cancel: what a backend does on cancellation is not modelled; the source itself notes that it is not as documented (burrow.c:271).
- The contents of the poll inside the processing loop: `Frontend` counts watched descriptors and takes the backend's answers to live ones in order, `PollFds` says which descriptors those are.
- A user's callback that cancels, sets options or destroys the client while it runs: callbacks may issue commands and call for processing.
- Logging, verbosity, loading backends by name, the dummy backend, examples, tests and build files.
