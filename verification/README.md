# A model of the protocols and formats of ZLToolKit and ctcpsvr

What is modelled, each part in the form the source has it:

- **The streaming JSON parser, printer and tree builder** (`ctcpsvr/json.cpp`). `JsonTables` holds the character
  classes and the transition, buffer and UTF-8 tables as total functions, `JsonMachine` what one byte and one text do,
  `JsonParser` the parser object on its arrays, proved against them. `JsonSyntax` and `JsonText` are an independent
  grammar of documents with their trees, symbols and bytes. `JsonReads`, `JsonReadsStrings` and `JsonCompleteness` show
  that documents are accepted, `JsonSoundness` and `JsonGrammar` that nothing else is, `JsonLimits` what the nesting
  and data limits change, `JsonErrors` which error a refused text gives and where. `JsonInvariant`, `JsonDone`, `JsonDom`,
  `JsonTheorems`, `JsonComments`, `JsonPrinter`, `JsonRoundTrip` and `JsonEdges` build on that.
- **The ring buffer** (`include/Util/RingBuffer.h`). `RingStorage` is the cache, `RingReplication` the protocol between
  the writers and the pollers as a state machine over all interleavings, `RingDispatcher` the objects with their loops,
  `RingSimulation` the proof that a dispatcher object with its readers does in every run what the state machine says,
  `RingMaster` the same for the ring buffer object, from the moment it is made.
- **The thread pool over its queue, semaphore and list** (`include/Thread`, `include/Util/List.h`). `LinkedList` is the
  list on the heap, `TaskQueue` the critical sections as methods, `ThreadPool` the state machine of workers, pushers
  and the shutdown, `TaskQueueSteps` the proof that the queue and semaphore objects follow it in every run.
- **The configuration store** (`ctcpsvr/cfgfile.cpp`). `CfgEntries` says what lookups, writes and deletions do to a list
  of entries, `CfgPositions` what that means for the positions and characters of the entries, `CfgStore` is the array
  edited in place. `CfgText` reads and prints files as functions, `CfgFormat` says the format by its characters alone and
  proves the two the same, `CfgParser` is the parser that cuts the image up in place and the printer, `CfgPersistence`
  the store and the file together.

What does not hold as one might expect, and is stated as it is:

- A bare zero takes no exponent (`0e1` is rejected), and a comment may not follow an exponent at once (`[1e5/**/]` is
  rejected): the table row of a number's exponent has no entry for comments.
- `json_parser_is_done` is true inside a comment, also before any document; with comments off it is exact.
- After a high surrogate any unicode escape is read up to its last digit, also one that cannot be a low surrogate.
- `act_ob` and `act_ab` report before they push, so a run that fails at the nesting limit has one event more.
- The configuration file's `iswhite` takes the terminating NUL for white space. A value that begins with `;` or `#` is
  therefore read as a comment, although it is written as a value; an empty comment counts as one that sticks to what
  follows; and `#` at the start of a line does not begin a comment.
- `cfg_find` compares ids without their quotes and `cfg_write` as they are spelled.
- An insertion into the configuration store moves one entry more than there is, so it needs room for two.
- Something pushed to a thread pool after its last worker has exited is never run. What is pushed after the shutdown but
  before that is.

## Model

| member | source | states |
|---|---|---|
| JsonGrammar.AcceptsDocuments | ctcpsvr/json.cpp:188-792 | Without limits, a text is read to its end without error, outside comments and with nothing open, if and only if it is the text of a document: white space and allowed comments around the lexemes of one array or object (sections 2, 6 and 7 of RFC 8259; no exponent straight after a bare zero, no lone surrogates, raw bytes as loosely as the UTF-8 tables check them). |
| JsonGrammar.FindDocument | ctcpsvr/json.cpp:730-792 | Whatever the limits, an accepted text is the text of a document, and its events are those of the tree, in order: every scalar once, numbers with their own text and type, strings decoded. |
| JsonCompleteness.DocumentsAreAccepted | ctcpsvr/json.cpp:730-792 | Every document of the grammar is accepted and reported as its own events, whatever follows each number (comma, bracket, white space, comment). |
| JsonLimits.AcceptsDocumentsThatFit | ctcpsvr/json.cpp:341-417 | With any limits, a text is accepted if and only if it is the text of a document that is no deeper than `max_nesting` and whose tokens fit: the text of each number, and each piece of a string behind what the string has stored by then, in fewer than `max_data` bytes; a unicode escape counts with its four digits. |
| JsonLimits.LimitsCutOff | ctcpsvr/json.cpp:341-417 | With limits a text is read exactly when it is read without them and after no prefix more is open than `max_nesting` or as much is stored as `max_data` (with room for the fourth digit of an escape); the result is then the same. |
| JsonLimits.DocumentsWithLimits | ctcpsvr/json.cpp:341-417 | A document is accepted under limits exactly when it fits them, with its own events. |
| JsonLimits.StringWithLimits | ctcpsvr/json.cpp:398-538 | A string body is read under a data limit exactly when every piece fits behind what was stored before it. |
| JsonMachine.RunWithoutLimits | ctcpsvr/json.cpp:341-417 | Limits only make a run fail: one that does not fail gives what it gives without limits. |
| JsonSyntax.SymbolsOfDocuments | ctcpsvr/json.cpp:562-624 | The symbol sequences that the structural states let through are exactly those of arrays and objects, with the events of the tree. |
| JsonTheorems.ParseIsUnique | ctcpsvr/json.cpp:730-792 | No text is the text of two trees. |
| JsonDom.LineariseInjective | ctcpsvr/json.cpp:562-616 | Different documents have different events. |
| JsonDone.DoneMeansDocument | ctcpsvr/json.cpp:720-724 | With comments off, return value 0 and `json_parser_is_done` together hold exactly for the texts of documents that fit the limits. |
| JsonDone.DoneInsideComment | ctcpsvr/json.cpp:720-724 | Where a kind of comment is allowed, they also hold for a text without any document: a single `#`, or a single `/`. |
| JsonDone.DoneMeansDocumentOrComment | ctcpsvr/json.cpp:720-792 | In every configuration, return value 0 and `json_parser_is_done` together hold exactly for accepted texts and for texts that end inside an allowed comment, begun after an accepted text or after nothing but white space and comments; never for both. |
| JsonDone.DoneIsExact | ctcpsvr/json.cpp:720-724 | So the two mean the end of a document if and only if both kinds of comment are off. |
| JsonDone.BodyIsWhole | ctcpsvr/json.cpp:188-338 | The bytes read so far inside a comment are the body of one that can be closed exactly when no continuation byte is due. |
| JsonEdges.NumbersRead | ctcpsvr/json.cpp:188-232 | A number of section 6 of RFC 8259 between brackets is accepted exactly when it is not a bare zero with an exponent and fits the data limit. |
| JsonEdges.ZeroWithExponent | ctcpsvr/json.cpp:207-207 | The smallest number that fails: `0e1`. |
| JsonEdges.CommentAfterExponent | ctcpsvr/json.cpp:188-232 | Wherever a value is awaited, a number with an exponent and a comment sign straight after it are not read, whatever is allowed. |
| JsonEdges.CommentAfter1e5 | ctcpsvr/json.cpp:188-232 | For example, `[1e5/**/]` is not accepted. |
| JsonEdges.SurrogatesComeInPairs | ctcpsvr/json.cpp:464-510 | In a string, whatever the limits, a surrogate escape is only read if it is a high one and the escape of a low one follows; a text too short for that may end within any unicode escape. For texts up to the end of the second escape this is also sufficient without limits. |
| JsonEdges.DoomedEscape | ctcpsvr/json.cpp:464-510 | The check comes with the last digit: after `D800` an escape that begins with 0 is read on, and cannot be completed. |
| JsonErrors.WhyAByteFails | ctcpsvr/json.cpp:730-792 | Every byte is refused for the first of these reasons that holds, and otherwise read: it cannot continue or begin a character (bad UTF-8); it is a control character; a closing bracket where a value may end finds nothing open, or the other kind; an opening one finds the nesting limit reached; a comma finds nothing open; a comment sign is not allowed; the table has no entry; the byte is kept and there is no room; the fourth digit of an escape breaks the rules of surrogates. |
| JsonErrors.WhyATextFails | ctcpsvr/json.cpp:730-792 | A text that fails has been read without error up to the byte that `processed` counts to, and fails with the reason for which that byte is refused. |
| JsonErrors.ByteCells | ctcpsvr/json.cpp:188-235 | Where in the table the actions that can fail stand, by state and byte. |
| JsonErrors.BracketAfterDocument | ctcpsvr/json.cpp:368-376 | A text fails with an empty stack if and only if a closing bracket follows a whole document in it. |
| JsonErrors.CommaAfterDocument | ctcpsvr/json.cpp:606-616 | It fails with a comma out of structure if and only if a comma follows a whole document. |
| JsonErrors.WrongBracket | ctcpsvr/json.cpp:368-376 | An accepted text with its last bracket exchanged for the other kind fails at that byte: with an unexpected mode, or, straight behind the opening bracket, with an unexpected character. |
| JsonErrors.LoneLowSurrogate | ctcpsvr/json.cpp:496-497 | The escape of a low surrogate without a high one fails at its fourth digit. |
| JsonErrors.BrokenPair | ctcpsvr/json.cpp:480-483 | So does any escape behind that of a high surrogate that is not the escape of a low one. |
| JsonUnicode.EncodeUnitIsUtf8 | ctcpsvr/json.cpp:471-509 | The bytes written for one UTF-16 unit are the UTF-8 of the scalar it names (section 3 of RFC 3629). |
| JsonUnicode.EncodePairIsUtf8 | ctcpsvr/json.cpp:480-494 | The bytes written for a surrogate pair are the UTF-8 of the scalar that the two units spell (section 2.1 of RFC 2781). |
| JsonUnicode.PairValueUtf16 | ctcpsvr/json.cpp:480-494 | A high and a low surrogate are the UTF-16 of exactly the scalar they are decoded to. |
| JsonUnicode.Utf8Spells | ctcpsvr/json.cpp:471-509 | The UTF-8 of a scalar has the lead byte, the continuation bytes and the shortest length of section 3 of RFC 3629, and its payload bits are the scalar. |
| JsonUnicode.Utf8Unique | ctcpsvr/json.cpp:471-509 | Every sequence of that shape is the UTF-8 of the scalar it spells. |
| JsonReadsStrings.ReadPiece | ctcpsvr/json.cpp:464-538 | Any piece of a string leaves in the buffer the bytes it stands for: for a letter escape the byte that section 7 of RFC 8259 lists for it, for a unicode escape or a pair of them the UTF-8 of the scalar. |
| JsonReadsStrings.EightEscapes | ctcpsvr/json.cpp:512-529 | The eight letter escapes one by one: a backslash and the letter, and the byte that is then stored. |
| JsonText.HexIs | ctcpsvr/json.cpp:445-456 | A byte is a hexadecimal digit of a value exactly if it stands at that place in `0123456789abcdef` or in `0123456789ABCDEF`. |
| JsonText.FourHexIs | ctcpsvr/json.cpp:464-471 | Four digits, in either case, are read as a number in base sixteen, the first digit first. |
| JsonText.MultiMeans | ctcpsvr/json.cpp:283-322 | The longer characters the two tables let through, by the ranges of their bytes: one to five continuation bytes, as many as the lead byte says. |
| JsonReads.ReadNumber | ctcpsvr/json.cpp:188-232 | A number of the grammar is stored verbatim, with its type pending, in a state that ends numbers. |
| JsonSoundness.FindNumber | ctcpsvr/json.cpp:188-232 | What an accepting run reads from the start of a number is a number of the grammar, delimited. |
| JsonSoundness.FindString | ctcpsvr/json.cpp:188-322 | What an accepting run reads inside a string is pieces of the grammar and the closing quote. |
| JsonGrammar.FindComment | ctcpsvr/json.cpp:540-560 | What an accepting run reads from a comment sign is a comment of the grammar, of an allowed kind. |
| JsonMachine.HexDigitsAreAppended | ctcpsvr/json.cpp:464-473 | Only a hexadecimal digit that is also stored leads into the unicode states, so the four digits are there when they are decoded. |
| JsonInvariant.TableSummary | ctcpsvr/json.cpp:188-235 | What the 37 by 34 table allows: the action a cell may hold in each state, and the states a cell may move to. |
| JsonInvariant.RunsAreStructured | ctcpsvr/json.cpp:357-376 | After every error-free run, whatever the configuration: the events are those of a tree under construction, its open containers are the stack, the state awaits what the tree awaits, keys are expected exactly where they may come, and multi-byte characters and surrogate halves occur only in strings and comments. |
| JsonInvariant.RunsKeepLimits | ctcpsvr/json.cpp:341-417 | No run, even a failing one, nests deeper than `max_nesting` or reports more than `max_data - 1` bytes. |
| JsonTheorems.EventsBeginDocument | ctcpsvr/json.cpp:730-792 | The events of any error-free run begin the events of some document. |
| JsonDom.PrefixesOfDocuments | ctcpsvr/json.cpp:562-616 | The event sequences that may come are exactly the prefixes of the events of documents. |
| JsonMachine.RunAppend | ctcpsvr/json.cpp:730-792 | Calling the parser on two parts of a text, unless the first fails, is calling it on the whole. |
| JsonTheorems.ChunksDoNotMatter | ctcpsvr/json.cpp:730-799 | However a text is cut into calls: same events, state, error and number of bytes consumed. |
| JsonComments.CommentsDoNotMatter | ctcpsvr/json.cpp:540-560 | Take any text some parser accepts and replace each comment by one space: a parser with any limits, comments allowed or not, accepts the result exactly when it would with comments allowed accept the original, so always with limits no tighter, and with the same events. |
| JsonParser.Parser.constructor | ctcpsvr/json.cpp:668-705 | A new parser: empty stack and buffer of the configured sizes. |
| JsonParser.Parser.ParserString | ctcpsvr/json.cpp:730-792 | The loop leaves the state, events, error and count that the machine gives, and keeps every offset inside its array. |
| JsonParser.Parser.ParserChar | ctcpsvr/json.cpp:796-799 | One byte is one step of the machine. |
| JsonParser.Parser.Feed | ctcpsvr/json.cpp:738-788 | One turn of the loop is one step of the machine. |
| JsonParser.Parser.IsDone | ctcpsvr/json.cpp:720-724 | Nothing open, and not at the start. |
| JsonParser.Parser.StateGrow | ctcpsvr/json.cpp:341-355 | The stack doubles, unless nesting is limited; its contents stay. |
| JsonParser.Parser.StatePush | ctcpsvr/json.cpp:357-366 | Pushes, or fails at the nesting limit and leaves everything as it was. |
| JsonParser.Parser.StatePop | ctcpsvr/json.cpp:368-376 | Pops, and fails on an empty stack or on the wrong kind of container. |
| JsonParser.Parser.BufferGrow | ctcpsvr/json.cpp:378-396 | The buffer doubles up to the data limit; its contents stay and there is room for a byte and the terminator. |
| JsonParser.Parser.BufferPush | ctcpsvr/json.cpp:398-409 | Appends, or fails exactly when the data limit leaves no room for the terminator. |
| JsonParser.Parser.DoBuffer | ctcpsvr/json.cpp:426-443 | Reports the pending value, if there is one, and empties the buffer. |
| JsonParser.Parser.DecodeUnicodeChar | ctcpsvr/json.cpp:464-510 | Replaces the four digits by the character, or fails; never writes past where the digits were. |
| JsonParser.Parser.ActComma | ctcpsvr/json.cpp:606-616 | A comma awaits a key in an object, a value in an array, and fails outside both. |
| JsonParser.Parser.ActBegin | ctcpsvr/json.cpp:562-586 | Reports the container, then pushes; a run that hits the nesting limit has reported it already. |
| JsonParser.Parser.ActEnd | ctcpsvr/json.cpp:571-594 | Pops, then reports the end. |
| JsonParser.Parser.ActEndComment | ctcpsvr/json.cpp:556-560 | Goes back to where the comment began, or to OK when that was no structural state. |
| JsonParser.Parser.ActEndString | ctcpsvr/json.cpp:596-604 | Reports a key or a string, and goes on to the colon or past the value. |
| JsonParser.Parser.DoAction | ctcpsvr/json.cpp:648-662 | Reports a pending value first where the action asks for it; state and type are stored only on success. |
| JsonPrinter.Printer.PrintMode | ctcpsvr/json.cpp:868-922 | One event, raw or pretty: comma, line break, indentation and text as the print state asks. |
| JsonPrinter.Printer.PrintString | ctcpsvr/json.cpp:825-842 | A quoted string, control characters, quotes and backslashes escaped. |
| JsonPrinter.Printer.PrintBinaryString | ctcpsvr/json.cpp:844-856 | A quoted string in which every byte outside printable ASCII is escaped. |
| JsonPrinter.EscapesPrinted | ctcpsvr/json.cpp:86-118 | The escape table entry by entry: the five letters, the quote, the backslash, printable ASCII as itself, everything else as `\u00` and two lower-case digits. |
| JsonPrinter.StringBytesPrinted | ctcpsvr/json.cpp:825-842 | In a string that is not binary only control characters, quotes and backslashes are escaped. |
| JsonRoundTrip.ParsePrinted | ctcpsvr/json.cpp:825-934 | What was printed, raw or pretty, is accepted exactly when its tokens and depth fit the limits, so always without limits, and reports the printed events again; binary strings come back as the UTF-8 of their bytes read as Latin-1. |
| JsonRoundTrip.PrintedIsDocument | ctcpsvr/json.cpp:868-922 | The printed text is a document of the grammar with white space only, spelling the printed tree. |
| JsonRoundTrip.BinaryString | ctcpsvr/json.cpp:844-856 | Any bytes printed as a binary string are a string of the grammar that stands for their Latin-1 reading. |
| JsonRoundTrip.ReadBackSame | ctcpsvr/json.cpp:825-842 | Without binary strings nothing changes. |
| JsonEdges.ReprintedIsParsedAlike | ctcpsvr/json.cpp:868-922 | Whatever is accepted can be printed from its events, raw or pretty; a parser with any limits under which the original is accepted, in particular the same or looser ones, reads that back to the same events. |
| JsonEdges.PrintedStringFits | ctcpsvr/json.cpp:825-842 | A printed string never needs more room in the buffer than the string it was parsed from. |
| JsonDom.DomBuilder.Callback | ctcpsvr/json.cpp:1025-1073 | One event on the builder's stack, in place. |
| JsonDom.DomBuildsDocument | ctcpsvr/json.cpp:1025-1073 | From the events of a document no deeper than its stack the builder makes that document. |
| JsonDom.DomRunHolds | ctcpsvr/json.cpp:1025-1073 | At every point the builder's stack holds exactly the containers under construction, and the root is set only at the end. |
| JsonTheorems.BuilderFollowsParser | ctcpsvr/json.cpp:977-1073 | In every configuration, the builder's first stack does for the events of a run exactly if no more was ever open than it has room for (1024); the builder then has as many open structures as the parser, of the same kinds, and a root exactly when the outermost has been closed. |
| JsonTheorems.ParsingBuildsDocument | ctcpsvr/json.cpp:977-1073 | In every configuration, the events of an accepted text are those of its document, and the builder makes that document from them exactly if it is no deeper than 1024. |
| RingStorage.Storage.constructor | include/Util/RingBuffer.h:113-119 | An empty cache whose limit is the given one, or 32 if that is smaller. |
| RingStorage.Storage.Write | include/Util/RingBuffer.h:129-141 | A key frame empties the cache first; the oldest frame goes when there are too many. |
| RingStorage.Storage.Clone | include/Util/RingBuffer.h:143-149 | A separate storage with the same contents and limit. |
| RingStorage.CacheIsTail | include/Util/RingBuffer.h:129-141 | After any writes the cache is the last `max_size` frames since the last key frame. |
| RingStorage.CacheEndsHistory | include/Util/RingBuffer.h:129-141 | The cache is a contiguous end of everything written, within the limit. |
| RingStorage.SinceKeyStarts | include/Util/RingBuffer.h:129-141 | It begins at the last key frame, if there was one, and holds no other. |
| RingStorage.PutAllAppend | include/Util/RingBuffer.h:129-141 | Writing two runs of frames is writing their concatenation. |
| RingDispatcher.ReaderObject.SetReadCB | include/Util/RingBuffer.h:65-72 | A new callback is first given the cache, if the reader uses it. |
| RingDispatcher.DispatcherObject.Write | include/Util/RingBuffer.h:196-209 | Every live reader gets the frame, expired ones are erased while iterating, the size goes down and is reported once for each, and the cache takes the frame. |
| RingDispatcher.DispatcherObject.Attach | include/Util/RingBuffer.h:211-233 | A new reader joins, the size goes up and is reported. |
| RingDispatcher.DispatcherObject.Dealloc | include/Util/RingBuffer.h:215-227 | A reader is forgotten at most once, and the size reported only then. |
| RingDispatcher.RingBufferObject.constructor | include/Util/RingBuffer.h:259-262 | An empty ring buffer without dispatchers that keeps as many frames as asked for, or 32 if that is less. |
| RingDispatcher.RingBufferObject.Write | include/Util/RingBuffer.h:266-280 | The master takes the frame, and the same write goes to the end of the queue of each mapped dispatcher's poller. |
| RingDispatcher.RingBufferObject.DispatcherFor | include/Util/RingBuffer.h:286-309 | The poller's dispatcher, or a new one that starts from a copy of the master. |
| RingDispatcher.RingBufferObject.OnSizeChanged | include/Util/RingBuffer.h:324-333 | A dispatcher without readers is unmapped; the user's callback, if there is one, is called with the poller, the size and whether a reader was added. |
| RingSimulation.Perform | include/Util/RingBuffer.h:65-233 | A dispatcher object with its readers that stands for a dispatcher of the state machine still does after the part it has in any action, whichever thread acts; what it reports changes the map of dispatchers as the action does. |
| RingSimulation.PerformAll | include/Util/RingBuffer.h:65-233 | So it does after any run. |
| RingSimulation.Undisturbed | include/Util/RingBuffer.h:170-248 | An action of others leaves a dispatcher and its readers as they are. |
| RingSimulation.CountdownReported | include/Util/RingBuffer.h:196-209 | However many readers a write finds expired, only the last size it reports can unmap the dispatcher. |
| RingSimulation.NewDispatcherIsRepresented | include/Util/RingBuffer.h:286-307 | A new dispatcher object stands for the dispatcher that attaching adds. |
| RingMaster.Create | include/Util/RingBuffer.h:259-262 | A new ring buffer object stands for the state in which every run of the state machine begins, with that limit. |
| RingMaster.PerformMaster | include/Util/RingBuffer.h:266-333 | The ring buffer object goes on standing for the state in any action: a write with everything it queues, the beginning of an attach, a task taken by a poller, and the reports that come back from the dispatcher. |
| RingMaster.CacheFromKey | include/Util/RingBuffer.h:129-141 | After any frames the cache holds those from the last key frame on, or all without one, the last `max_size` of them if there are more. |
| RingMaster.AttachAfter | include/Util/RingBuffer.h:65-312 | A ring buffer is made, frames are written and a reader attaches with the cache: it is given the frames from the last key frame on, all of them if that is no more than the size asked for (or 32). |
| RingReplication.StepKeepsInv | include/Util/RingBuffer.h:196-333 | Every action of every thread (write, the two halves of attach, setting or clearing a callback, dropping a reader, a queued write, a queued deletion) keeps the invariant of the protocol. |
| RingReplication.DispatchersFollowMaster | include/Util/RingBuffer.h:266-312 | In every reachable state, replaying what is queued for a mapped dispatcher onto its cache gives the master's cache. |
| RingReplication.ReadersGetContiguousHistory | include/Util/RingBuffer.h:65-99 | In every reachable state, what a live reader's callback was given is a block of the history without gap or duplicate, from the bounded tail since the last key frame (or from now, without the cache) to the last write delivered; the rest is still queued; its dispatcher is mapped. |
| RingReplication.OnlyEmptyDispatchersAreUnmapped | include/Util/RingBuffer.h:324-333 | Sizes count readers; a dispatcher is unmapped exactly as its last reader goes, and no step ever unmaps another, newer or older. |
| RingReplication.PollersCatchUp | include/Util/RingBuffer.h:266-280 | From every reachable state a poller that runs its queue ends with the master's cache, and its live readers with everything written. |
| LinkedList.List.Move | include/Util/List.h:46-48 | The new list takes the nodes and the old one is empty. |
| LinkedList.List.EmplaceFront | include/Util/List.h:81-92 | Prepends one new node. |
| LinkedList.List.EmplaceBack | include/Util/List.h:95-106 | Appends one new node and changes no node but the last. |
| LinkedList.List.At | include/Util/List.h:116-122 | The element at a position. |
| LinkedList.List.ForEach | include/Util/List.h:65-71 | Visits the elements in order, once each. |
| LinkedList.List.PopFront | include/Util/List.h:124-135 | Removes the first element, if any. |
| LinkedList.List.Clear | include/Util/List.h:52-63 | Frees every node exactly once, in order, reading none after it is freed. |
| LinkedList.List.Swap | include/Util/List.h:137-151 | Exchanges the two lists, also a list with itself. |
| LinkedList.List.Append | include/Util/List.h:153-169 | All of a distinct list moves to the end, the same nodes, and leaves it empty. |
| LinkedList.EmplaceBackBeside | include/Util/List.h:95-106 | Any third list apart from this one stays apart and unchanged. |
| LinkedList.AppendBeside | include/Util/List.h:153-169 | Lists that share no node still share none after an append, and a third one is unchanged. |
| LinkedList.ChainJoin | include/Util/List.h:153-169 | Joining two chains end to start gives a chain without repetition. |
| TaskQueue.Semaphore.Post | include/Thread/semaphore.h:43-58 | Adds to the count; one waiter is notified for one, all for any other number. |
| TaskQueue.Semaphore.TryPass | include/Thread/semaphore.h:59-69 | One round of the waiting loop: past it exactly when the count was positive, which then goes down. |
| TaskQueue.TaskQueue.Push | include/Thread/TaskQueue.h:31-35 | Under the lock, one element joins at the back. |
| TaskQueue.TaskQueue.PushFirst | include/Thread/TaskQueue.h:39-43 | Under the lock, one element joins at the front. |
| TaskQueue.TaskQueue.PushExit | include/Thread/TaskQueue.h:47-49 | Posts passes without elements. |
| TaskQueue.TaskQueue.Take | include/Thread/TaskQueue.h:51-61 | Takes the first element, or finds the queue empty. |
| TaskQueueSteps.Perform | include/Thread/TaskQueue.h:31-61 | The queue and semaphore objects do in each critical section what the state machine says, and what they return decides how the worker goes on and whom a post notifies. |
| TaskQueueSteps.PerformAll | include/Thread/TaskQueue.h:31-61 | So they do in any run. |
| ThreadPool.StepKeepsInv | include/Thread/ThreadPool.h:113-138 | Every critical section of every thread keeps the invariant. |
| ThreadPool.PassesAreBalanced | include/Thread/TaskQueue.h:31-61 | In every interleaving: count + workers past wait + pushers before post = queue length + unused exit tokens; sleepers never outlast a pass nobody was woken for; no worker exits without a token. |
| ThreadPool.JoinedPoolRanEverything | include/Thread/ThreadPool.h:43-46 | A joined pool has run every task pushed before its last worker exited, also after the shutdown, exactly once, and in order unless one was pushed to the front; the queue holds what was pushed after that. So it has run everything if and only if nothing was pushed after the last exit. |
| ThreadPool.LatePushIsLost | include/Thread/ThreadPool.h:132-138 | From every reachable state a pool with workers can be shut down to the joins; a task pushed then stays in the queue. |
| ThreadPool.LeftTasksStay | include/Thread/ThreadPool.h:113-130 | What is in the queue of a joined pool is never run, whatever happens next. |
| ThreadPool.LastExit | include/Thread/ThreadPool.h:113-130 | When the last worker exits, in any interleaving, the queue is empty, no pass is left or still to be posted, and everything pushed by then has been run exactly once and in order. |
| ThreadPool.ProgressShrinks | include/Thread/ThreadPool.h:113-130 | Only new work and spurious wakeups can go on for ever: every other step shrinks a measure. |
| ThreadPool.ShutdownNeverStalls | include/Thread/semaphore.h:59-69 | After the shutdown, until every worker has exited, some step other than a spurious wakeup can be taken, whatever is pushed meanwhile. |
| ThreadPool.ShutdownCompletes | include/Thread/ThreadPool.h:132-138 | From wherever the shutdown finds the pool, it can be run to the joins. |
| CfgEntries.UnquotedIsSame | ctcpsvr/cfgfile.cpp:193-211 | An id is what it is looked up by exactly when it is not empty and has no quotes. |
| CfgPositions.UnquotedIs | ctcpsvr/cfgfile.cpp:193-211 | An id is looked up by a name exactly if it is the name behind any number of quotes, up to the end or the next quote, and the name has none and is not empty. |
| CfgPositions.UnquotedIsNone | ctcpsvr/cfgfile.cpp:193-211 | Only an id of nothing but quotes has no name. |
| CfgPositions.LookupIs | ctcpsvr/cfgfile.cpp:807-848 | A lookup finds something exactly if there is a definition that spells the id in the first section of the name, and then it finds the value of the first one. |
| CfgPositions.QuotedKeyIsFound | ctcpsvr/cfgfile.cpp:807-848 | So a key in quotes is found by its name. |
| CfgEntries.WriteThenFind | ctcpsvr/cfgfile.cpp:807-1004 | A value written to a key is what a lookup then returns if and only if the id is quote-free and no earlier entry of the section reads like it without being spelled like it (or that one has the same value). |
| CfgEntries.PlainIdsAreNotShadowed | ctcpsvr/cfgfile.cpp:822-827 | No such entry exists while all ids are quote-free. |
| CfgEntries.WriteKeepsOthers | ctcpsvr/cfgfile.cpp:864-1004 | A write changes no lookup but the one the written id spells: update, insert before the next section, append and new section alike. |
| CfgEntries.WriteIsMapUpdate | ctcpsvr/cfgfile.cpp:864-1004 | With quote-free ids a write is a map update, and ids stay quote-free. |
| CfgEntries.DeleteKeepsOthers | ctcpsvr/cfgfile.cpp:981-1057 | Deleting a key, with the comments attached to it, changes no other lookup. |
| CfgEntries.DeleteExposesLater | ctcpsvr/cfgfile.cpp:981-1057 | After a key is deleted, only a later definition of it in the same section can be found; if an entry that reads like it without being spelled like it comes first, that one goes on being found. |
| CfgEntries.SectionDeleteKeepsOthers | ctcpsvr/cfgfile.cpp:1008-1057 | Deleting a section changes no lookup in another one. |
| CfgEntries.SectionDeleteExposesLater | ctcpsvr/cfgfile.cpp:1008-1057 | Then only a later section of the same name can be found. |
| CfgPositions.DeletedIs | ctcpsvr/cfgfile.cpp:979-1057 | Deleting a key takes out one stretch of entries: the first one spelled so in the first section of the name, and before it all lines of their own whose comment is empty or begins with white space, `;` or `#`, up to one that is not such. Without that entry nothing changes. |
| CfgPositions.SectionDeletedIs | ctcpsvr/cfgfile.cpp:1006-1057 | Deleting a section takes out one stretch: from the comments attached to its heading up to those attached to the next heading or the end. |
| CfgStore.WrittenPlace | ctcpsvr/cfgfile.cpp:898-977 | Where a write changes the entries: in place, before the next section, or at the end. |
| CfgStore.Memmove | ctcpsvr/cfgfile.cpp:948-949 | A block of entries moves, overlapping or not. |
| CfgStore.Config.PoolAlloc | ctcpsvr/cfgfile.cpp:711-737 | Room for more entries, if need be in an array half as large again (102 more at first); the entries stay. |
| CfgStore.Config.StoreEntry | ctcpsvr/cfgfile.cpp:673-708 | Appends an entry; a dynamic one with a comment is given its value as the comment. |
| CfgStore.Config.NextEntry | ctcpsvr/cfgfile.cpp:767-805 | Moves to the next entry with a section or a value and says what it is, or reports the end and stays there; without a valid store, or past the end, it changes nothing. |
| CfgStore.Config.Find | ctcpsvr/cfgfile.cpp:807-848 | Success exactly when the store is valid and the lookup finds something. The cursor then stands behind the first definition that spells the id in the first section of that name, whose id and value are the current ones; without one it stands behind the next section, which is then the current one, or at the end. |
| CfgStore.Config.FindSection | ctcpsvr/cfgfile.cpp:807-848 | Success exactly when the section exists; the cursor then stands behind its first heading, otherwise at the end, with the last section of the file as the current one. |
| CfgStore.Config.InsertBefore | ctcpsvr/cfgfile.cpp:941-957 | Inserts before an entry; the block moved is one entry too long, so two free places are needed. |
| CfgStore.Config.AddDefinition | ctcpsvr/cfgfile.cpp:898-977 | Update, insert, append or new section. |
| CfgStore.Config.DeleteDefinition | ctcpsvr/cfgfile.cpp:979-1057 | Takes out the first definition with that spelling and the comments attached to it, and nothing else; `dirty` is set exactly if there was one. |
| CfgStore.Config.DeleteSection | ctcpsvr/cfgfile.cpp:1006-1057 | Takes out the section with the comments attached to it, but not those attached to the next, and nothing else; `dirty` is set exactly if there was one. |
| CfgStore.Config.Write | ctcpsvr/cfgfile.cpp:864-1057 | All of these, by what it is called with; an invalid store is not touched, and `dirty` is set exactly if something was written or deleted. |
| CfgPersistence.WritesAreMapUpdates | ctcpsvr/cfgfile.cpp:864-1004 | Any sequence of writes does to the lookups what it does to a map. |
| CfgPersistence.SavedValueIsFound | ctcpsvr/cfgfile.cpp:1104-1206 | Written, saved and read again, the value is found, every other lookup is unchanged, and the file can be used the same way again. |
| CfgText.RoundTrip | ctcpsvr/cfgfile.cpp:564-670 | Printed entries are read back the same if and only if every one is normal: a section, a definition or a comment in trimmed fields without delimiters, quotes balanced before a comment. |
| CfgText.NormalRoundTrip | ctcpsvr/cfgfile.cpp:1104-1206 | The blank lines that are printed between sections make no entries. |
| CfgText.ParsedIsNormal | ctcpsvr/cfgfile.cpp:564-670 | Whatever is read from an ended line, unless it continues another, is normal. |
| CfgText.ReprintKeepsEntries | ctcpsvr/cfgfile.cpp:1104-1206 | A file without continuation lines keeps its entries when it is read, printed and read again. |
| CfgText.ContinuationChanges | ctcpsvr/cfgfile.cpp:1151-1157 | A continuation is never read back as what it was: it is printed without its indentation. |
| CfgText.MagicValueIsLost | ctcpsvr/cfgfile.cpp:630-650 | A value that begins with `;` or `#` is read back as the comment of an empty value. |
| CfgText.ParsedOnOneLine | ctcpsvr/cfgfile.cpp:518-543 | No field that is read contains an end-of-line character. |
| CfgFormat.BalancedIsClosed | ctcpsvr/cfgfile.cpp:632-651 | No quote is open behind a string exactly if it divides into characters that are no quotes and stretches between two quotes of a kind with no third of that kind inside. |
| CfgFormat.CommentAtIs | ctcpsvr/cfgfile.cpp:632-651 | The scan of a value stops at the first comment sign that is first or follows a blank and has a balanced string before it, and at no other place. |
| CfgFormat.ParseLineIs | ctcpsvr/cfgfile.cpp:583-664 | A line gives an entry exactly if it spells it: `[name]`, `id=value`, an indented value, each with a comment or not, or a comment alone, with the fields trimmed as the format says. |
| CfgFormat.ParseTextIs | ctcpsvr/cfgfile.cpp:518-670 | What is read from a text is exactly what its lines spell, however it is divided by `\n`, `\r` and the end-of-file character; every line that is ended is trimmed. |
| CfgFormat.QuotedValueIsWhole | ctcpsvr/cfgfile.cpp:632-651 | A value in quotes is taken whole, with comment signs and quotes of the other kind in it. |
| CfgFormat.TextIs | ctcpsvr/cfgfile.cpp:1104-1206 | The printed file by the entries: a blank line comes before a section, or before the first of the comments that stick to it, when an earlier section has been printed and no such comment since. |
| CfgFormat.LinesPrinted | ctcpsvr/cfgfile.cpp:1116-1157 | The printed line of each kind of entry. |
| CfgParser.Image.GetLine | ctcpsvr/cfgfile.cpp:518-543 | Cuts off the next line, trims it within itself unless it ends the file, and makes progress; the rest of the image is untouched. |
| CfgParser.Image.RTrimAt | ctcpsvr/cfgfile.cpp:546-558 | Trims in place; says whether anything is left. |
| CfgParser.Image.FindComment | ctcpsvr/cfgfile.cpp:632-651 | Finds the first `;` or `#` that is the first character or follows white space and before which every quote is closed; the cut `=` counts as white space. |
| CfgParser.Image.ParseLineAt | ctcpsvr/cfgfile.cpp:583-664 | One line cut up in place: the stored places give the fields of the entry, and nothing outside the line changes. |
| CfgParser.Image.Parse | ctcpsvr/cfgfile.cpp:564-670 | The loop ends on every image without NUL characters; the places it has stored are C strings, in the image as it is left, that spell exactly the entries the text spells by the format, each within the image. |
| CfgParser.Output | ctcpsvr/cfgfile.cpp:1104-1206 | Prints one line for each entry, and a blank line exactly where the entries around it ask for one. |

## Left out

- Allocation failure, user allocators, 32-bit overflow of sizes and counts, and callbacks that return an error: sizes are natural numbers and every allocation succeeds.
- JsonTheorems.ParsingBuildsDocument: what the tree builder does with a document deeper than the 1024 entries of its first stack is not modelled; the code grows the stack by an entry count where a size in bytes is meant.
- `json_print_args`: it prints its arguments one after another with the same function.
- The state of a parser after an error, beyond what the machine gives.
- The delegate of the ring buffer, attaching from a thread that is not the poller's, and the destruction of the ring buffer and of dispatchers with live readers.
- RingDispatcher.RingBufferObject.Write: the order in which pollers are visited is left open, as the hash map leaves it.
- Operating-system priorities, the load counter, exceptions thrown by what is run, and running inline in a worker's own thread.
- ThreadPool.JoinedPoolRanEverything: needs at least one worker; without any, nothing is ever run.
- LinkedList.List.Append: a list appended to itself is excluded; its nodes would form a cycle.
- Memory management of the configuration store: the flags that say which strings to free, and copying of strings.
- Calls of the configuration store without a section; file locking, `stat`, refresh and commit, and the typed getters built on `cfg_find`.
- CfgStore.Config.InsertBefore: requires two free places, since the code moves one entry more than there is, past the end of the array otherwise.
- CfgStore.Config.AddDefinition: requires the free places that an insertion needs, for the same reason.
- CfgStore.Config.DeleteSection: requires an entry that is no comment before the section, since the code looks at what is before the array otherwise.
- CfgStore.Config.Write: requires the free places that an insertion needs, since the code writes past the array or through a stale address otherwise.
- CfgParser.Image.Parse: requires an image without NUL characters; the loop does not get past one.
- CfgParser.Output: the longest key that the code works out is not modelled, as nothing depends on it.
- Sockets, pollers, redis, logging, SQL, TLS, the hash functions and the servers: input and output, or wrappers around code that is not part of this repository.
