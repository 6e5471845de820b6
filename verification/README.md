# Models of the di-rac daemons

di-rac is a coding agent built from native components that talk over line-delimited JSON. This
project states, in Dafny, what its concurrency- and codec-heavy parts do and proves the properties
they are relied on for.

- **Lock manager** (`central-daemon/src/trie.c`). `LockTrie` holds the tree of mutable nodes with
  parent pointers, intent counts, wait queues, registries and counters; one `Valid()` ties them to
  each other. `LockSpec` is an independent reading of the same operations that has no counts and
  no registries: whether a node can be granted is read off the owned nodes. The methods of the tree
  compute that specification (`LockBook` and `LockCleanup` hold the value-level steps of the proof),
  `LockOutcomes`, `LockInvariants` and `LockExclusion` prove what single operations do and keep,
  `LockRuns` and `LockArrivals` what all runs keep, and `LockServer` ties request sequences on the
  tree to such runs. `ConfigSpec` is the same for settings, `Paths` and `PathText` for paths.
- **Codecs and framing**. `JsonText`, `JsonReader`, `JsonCursor` and `JsonWriter` are the command
  daemon's JSON reader and writer; `Framing` and `FramingClient` the central daemon's incremental
  object framer and its buffer; `CentralText` and `CentralNotice` its own escaping and a message
  built with it; `PersistCodec` the settings file.
- **Streaming** (`api-gateway`). `Bridge` is the producer goroutine, the three bounded channels and
  the selecting consumer as one state machine over interleaved steps; `SseSpec`, `SseConservation`,
  `SseEndings` and `SseParser` are the provider stream parser.
- **Anchors** (`di-core/src/util.rs`). `AnchorSpec` and `AnchorIndex`.
- **Tool calls** (`api-gateway/providers`). `ToolPairing` and `ToolErrors` are request validation,
  `ToolMessages` and `ToolContents` the conversion of histories and the repair of orphaned results.

Some results are about where the code does not do what one would expect, each with an input and an
exact condition:

- A disconnect can leave a node and one of its ancestors both locked, because it offers ancestors
  before the released node and the grant looks only downwards. `LockExclusion.DisconnectExclusive`
  says precisely when; every other lock invariant survives even then.
- The command daemon's reader does not decode `\u` escapes, which its writer emits for most control
  characters; `JsonReader.UnescapedExactly` gives the exact set of strings that survive. The central
  daemon's decoder does read them all.
- The stream parser drops text that comes beside reasoning, any second source of thoughts, and all
  choices but the first. `SseConservation.Conserved` says exactly when nothing is lost, and
  `EmptyDetailLosesAll` shows a chunk of which nothing is left.
- Validation and repair do not agree on what an orphaned result is: validation accepts a call made in
  a user message, which conversion drops, and a message that has the tool role but no result.
  `ToolMessages.RepairsExactly` gives the exact condition on the request, and
  `ToolMessages.AcceptedNeedsNoRepair` a client's discipline that is enough.

The comment on `json_escape_string` asks its caller for two bytes a character; the code needs up to
six, and its caller provides six. Comments in `trie.c` speak of 256 segments where the parser
stops at 64. The models follow the code.

Inputs that come from outside are parameters: which of several ready channel operations a select
takes, when a context is cancelled, whether a write or a callback fails, how a stream is cut into
reads, the content hash, how a provider renames finish reasons. Strings are sequences of characters
standing for bytes. Hash tables are finite maps.

## Model

| member | source | states |
|---|---|---|
| `PathText.ParseSegments` | central-daemon/src/trie.c:291-330 | the in-place scan with its 64-entry stack and 127-character cap leaves exactly the segments that the stack reading of ".", ".." and empty pieces gives |
| `PathText.ResolveStorable` | central-daemon/src/trie.c:291-330 | a resolved path is never deeper than 64 and its segments are never empty, ".", "..", longer than 127 or with a slash |
| `PathText.ResolvePrint` | central-daemon/src/trie.c:859-894 | resolving a printed path gives the path back, for every path the tree can hold |
| `PathText.ResolveComponent` | central-daemon/src/trie.c:291-330 | appending "/name" to any path text pushes that one piece on the resolved path, up to the caps |
| `PathText.ResolveSlashes` | central-daemon/src/trie.c:291-330 | a slash more, between two pieces or at the end, changes nothing |
| `PathText.PrintIsPlain` | central-daemon/src/trie.c:859-894 | a printed path starts with a slash and every slash has a name behind it: none doubled, none at the end but for the root |
| `PathText.PrintPath` | central-daemon/src/trie.c:859-894 | prints the path exactly when text and terminator fit the buffer; otherwise -1, or 0 for the root |
| `LockTrie.Trie.NodeGetPath` | central-daemon/src/trie.c:859-894 | the walk up the parent chain prints the node's own path under the same buffer bound |
| `LockTrie.Trie.PrintedPathLeadsBack` | central-daemon/src/trie.c:859-894 | traversing a node's printed path arrives at that very node |
| `LockTrie.Trie.Traverse` | central-daemon/src/trie.c:291-330 | finds or creates the node of the resolved path; a locked strict ancestor is reported exactly when there is one, and nodes are only ever added |
| `LockTrie.Trie.GetChild` | central-daemon/src/trie.c:271-289 | returns the child of that name, or adds one node under its parent and nothing else |
| `LockTrie.Trie.AcquireLock` | central-daemon/src/trie.c:749-792 | keeps the whole-tree invariant; result code, owners and queues are those of the value-level acquire, which tests the owned nodes below directly instead of a counter |
| `LockTrie.Trie.GrantToNextWaiter` | central-daemon/src/trie.c:796-818 | grants exactly when the node has a waiter and nothing at or below it is locked, even while some ancestors' counts are one too high |
| `LockTrie.Trie.ReleaseLock` | central-daemon/src/trie.c:820-838 | keeps the invariant; the upward walk stops at its first grant and its result is the value-level release |
| `LockTrie.Trie.GrantUpwards` | central-daemon/src/trie.c:828-837 | offers the node, then its ancestors from the nearest up, and stops at the first grant; all counts exact again |
| `LockTrie.Trie.LeaveQueues` | central-daemon/src/trie.c:904-926 | the pass over the waiting list removes the client from every queue in the tree, one entry each |
| `LockTrie.Trie.VacateNode` | central-daemon/src/trie.c:932-987 | one turn of the release loop, decrement and grant interleaved up the chain, ends with exact counts, the value-level outcome, and callbacks and wake-ups in grant order |
| `LockTrie.Trie.CleanupFd` | central-daemon/src/trie.c:896-1003 | disconnect as a whole: terminates, keeps the invariant, releases in the order the swap-removal gives, reports every grant, drops the transient settings, and leaves the persistent ones and the node set alone |
| `LockTrie.Trie.GetOwnedCount` | central-daemon/src/trie.c:840-845 | the registry's list length is the number of nodes the client owns in the tree |
| `LockTrie.Trie.GetStats` | central-daemon/src/trie.c:847-852 | the three running totals equal the number of nodes, of owned nodes and of queue places in the whole tree |
| `LockTrie.RegisterNode` | central-daemon/src/trie.c:692-728 | appends the node to the client's list |
| `LockTrie.UnregisterNode` | central-daemon/src/trie.c:730-743 | removes one entry by moving the last one into its place; the list stays, if only empty |
| `LockInvariants.AcquireSound` | central-daemon/src/trie.c:749-792 | no waiter is left at a grantable node by an acquire; queues stay duplicate-free and never hold the owner |
| `LockInvariants.ReleaseSound` | central-daemon/src/trie.c:820-838 | the same after a release, although its walk stops at the first grant |
| `LockInvariants.DisconnectSound` | central-daemon/src/trie.c:896-1003 | the same after a disconnect, which also leaves the client owning nothing and waiting nowhere |
| `LockInvariants.VacateShrinks` | central-daemon/src/trie.c:932-988 | each turn takes exactly one node off what the leaving client owns, which is why the loop ends |
| `LockInvariants.DisconnectGrantsToOthers` | central-daemon/src/trie.c:901-926 | no lock handed over during a disconnect goes to the client that is leaving |
| `LockOutcomes.AcquireCode` | central-daemon/src/trie.c:749-792 | 0 exactly when no ancestor is locked and nobody else holds the node or anything below; 1 exactly when blocked, asked to wait, and already queued or the queue has room; -1 in all other cases |
| `LockOutcomes.AcquireOwners` | central-daemon/src/trie.c:754-791 | only the requested node can change hands, from nobody to the client; 0 exactly when the client then owns it and no ancestor is locked |
| `LockOutcomes.AcquireQueues` | central-daemon/src/trie.c:755-782 | only the client can join, at the end of that node's queue and only by asking to wait; without waiting no queue changes; 1 exactly when it then stands in the queue, asked to wait and no ancestor is locked |
| `LockOutcomes.AcquireNodes` | central-daemon/src/trie.c:291-330 | the node and its ancestors exist afterwards unless an ancestor is locked, and no other node is created |
| `LockOutcomes.UnlockedIsGranted` | central-daemon/src/trie.c:783-791 | a node with no lock above, at or below it is always granted |
| `LockOutcomes.ReleaseByOthers` | central-daemon/src/trie.c:822 | for a client that does not own the node nothing changes, nothing is logged and the answer is -1 |
| `LockOutcomes.ReleaseByOwner` | central-daemon/src/trie.c:823-837 | the node is given up and the nearest node from it upwards that has waiters and is free goes to its first waiter, whose number is the answer; -1 if there is none |
| `LockOutcomes.ReleaseKeepsOthers` | central-daemon/src/trie.c:820-838 | nobody else loses a lock, at most one node is newly owned, and by the client answered |
| `LockOutcomes.ReleaseQueues` | central-daemon/src/trie.c:796-838 | the granted client leaves the head of its queue and no other queue moves |
| `LockOutcomes.DisconnectOutcome` | central-daemon/src/trie.c:896-1003 | afterwards the others own what they owned and wait where they waited, except that some free nodes have gone to their first waiters, as many as could |
| `LockRuns.RunSound` | central-daemon/src/trie.c:749-1003 | in every state reachable by any acquires, releases, config writes and disconnects a node with waiters is owned or has a lock below it |
| `LockExclusion.AcquireExclusive` | central-daemon/src/trie.c:319-328 | an acquire never creates an owned node above another owned node |
| `LockExclusion.ReleaseExclusive` | central-daemon/src/trie.c:820-838 | nor does a release with its hand-overs |
| `LockExclusion.VacateExclusive` | central-daemon/src/trie.c:932-987 | one disconnect turn keeps exclusion if and only if it does not find an ancestor whose only lock below is the released node while both have waiters |
| `LockExclusion.DisconnectExclusive` | central-daemon/src/trie.c:928-988 | a disconnect keeps exclusion if and only if the state before it holds no such collision, a condition on queues and locks that can be read before the call |
| `LockRuns.RunExclusive` | central-daemon/src/trie.c:749-1003 | exclusion holds all along a run if and only if no disconnect in it starts from a collision |
| `LockRuns.RunWithoutDisconnects` | central-daemon/src/trie.c:749-838 | without disconnects no owned node ever has an owned strict ancestor |
| `LockRuns.DisconnectCanBreakExclusion` | central-daemon/src/trie.c:940-966 | a concrete run of four steps after which a node and its parent are both owned |
| `LockRuns.RunExplained` | central-daemon/src/trie.c:749-1003 | owners and queues of every reachable state are those its event history tells, and every event in it is fair: grants go to the head of the queue, direct grants only past an empty queue |
| `LockArrivals.RunFirstComeFirstServed` | central-daemon/src/trie.c:754-803 | at each node the arrivals whose client did not leave before being granted it equal the grants so far followed by the current queue |
| `LockArrivals.FirstComeFirstServed` | central-daemon/src/trie.c:754-803 | the same for every fair history, an arrival counting as removed when its client leaves with no hand-over to it in between |
| `LockRuns.NoBarging` | central-daemon/src/trie.c:754-791 | a direct grant happens only when the queues of the node and of everything below it are empty |
| `LockBook.GrowBalanced` | central-daemon/src/trie.c:271-289 | creating nodes keeps counts, lists and totals equal to a full walk |
| `LockBook.TakeBalanced` | central-daemon/src/trie.c:783-791 | so does a direct grant |
| `LockBook.ArriveBalanced` | central-daemon/src/trie.c:775-781 | so does joining a queue |
| `LockBook.FreeBalanced` | central-daemon/src/trie.c:823-827 | so does giving a lock up with its walk over the ancestors' counts |
| `LockBook.HandBalanced` | central-daemon/src/trie.c:799-817 | so does a grant from the queue, also while a set of nodes above still owes a decrement |
| `LockBook.CountTest` | central-daemon/src/trie.c:798 | a count of zero, taken where no decrement is owed, means that nothing below is locked |
| `LockBook.PlacesTotal` | central-daemon/src/trie.c:847-852 | the waiter total is the sum of the queue lengths over any list of all nodes |
| `LockBook.WithdrawBalanced` | central-daemon/src/trie.c:904-926 | after a client leaves all queues the indexes and totals agree with the tree again |
| `LockCleanup.PayBack` | central-daemon/src/trie.c:941-942 | lowering one ancestor's count settles exactly that ancestor's debt and leaves those above it owing |
| `LockCleanup.DrainOrder` | central-daemon/src/trie.c:931-937 | emptying a list by moving its last entry to the front visits the first entry and then the others backwards |
| `LockCleanup.NoticesAreGrants` | central-daemon/src/trie.c:940-987 | when every path fits its buffer the callbacks are exactly the hand-overs of the disconnect, client by client and in order |
| `LockServer.ServeOne` | central-daemon/src/trie.c:334-1003 | each request moves the tree as one step of the value-level specification and the settings as one write, and is answered as they say |
| `LockServer.Serve` | central-daemon/src/trie.c:146-1003 | for any requests to a new tree, locks and settings end as those of the run and writes that these very requests make, and every reply is the one of that run: no wake-up is lost, queues are first come first served, exclusion holds if no client hung up, lookups answer from the last writes |
| `LockServer.ServedNoBarging` | central-daemon/src/trie.c:754-791 | a served acquire granted at once found nobody waiting at its node or below |
| `LockServer.ServedTry` | central-daemon/src/trie.c:755-756 | a served acquire that does not ask to wait is granted or denied, and no queue changes |
| `LockServer.ServedRelease` | central-daemon/src/trie.c:820-838 | a served release of another client's lock is answered -1 and leaves every lock and queue as it was |
| `LockServer.ServedLookup` | central-daemon/src/trie.c:414-466 | a served lookup is answered from the last writes among the requests before it |
| `LockTrie.Trie.SetConfig` | central-daemon/src/trie.c:334-412 | writes or removes exactly one setting, transient or persistent; a persistent write creates the node and touches no lock |
| `LockTrie.Trie.GetConfig` | central-daemon/src/trie.c:414-466 | the client's own transient value if any, else the value at the deepest existing node on the path that holds the key, found with the parser the traversal uses |
| `ConfigSpec.InheritedFromDeepest` | central-daemon/src/trie.c:426-466 | the inherited value is that of the longest prefix holding the key, and there is none exactly when no prefix holds it |
| `ConfigSpec.AfterIsLastWrite` | central-daemon/src/trie.c:334-412 | after any writes and disconnects each setting is the one last written, each override the one last written since the client's last disconnect |
| `ConfigSpec.LookupIsLastWrite` | central-daemon/src/trie.c:414-466 | a lookup after any run answers from those last writes |
| `JsonText.StringEndOfEscaped` | command-daemon/src/json.h:43-51 | the string scanner stops exactly past the closing quote of any escaped string |
| `JsonText.TextNeutral` | command-daemon/src/json.h:55-66 | scanning past a written value inside a container leaves the depth where it was, whatever quotes and brackets its strings contain |
| `JsonText.TokenIsValue` | command-daemon/src/json.h:72-110 | the token read where a written value starts is exactly that value's text, whatever delimiter follows |
| `JsonReader.EntriesOfFields` | command-daemon/src/json.h:145-172 | asking for key after key inside a written object yields its fields, all of them and in order |
| `JsonReader.TokensOfItems` | command-daemon/src/json.h:72-110 | asking for token after token inside a written array yields its items, all of them and in order |
| `JsonReader.EnterWritten` | command-daemon/src/json.h:116-137 | entering a written container leaves exactly the text between its brackets |
| `JsonReader.UnescapedExactly` | command-daemon/src/json.h:208-235 | a string survives writing and reading if and only if the buffer is long enough and its only control characters are newline, carriage return and tab |
| `JsonReader.UnescapedPrefix` | command-daemon/src/json.h:208-235 | with a shorter buffer such a string comes back as its longest prefix that fits |
| `JsonReader.FindInWritten` | command-daemon/src/json.h:270-286 | looking a key up in a written object answers from its fields in order |
| `JsonReader.FirstNamedIs` | command-daemon/src/json.h:270-286 | the first field of the (clipped) name decides; a value that is not a string counts as missing |
| `JsonReader.WrittenStringComesBack` | command-daemon/src/json.h:270-286 | a stored string is found and returned whole if and only if it fits and is decodable |
| `JsonReader.WrittenIntComesBack` | command-daemon/src/json.h:238-246 | a written 64-bit integer reads back cast to 32 bits, so it comes back if and only if it fits them |
| `JsonReader.KindsExactly` | command-daemon/src/json.h:176-204 | each kind of written value passes its own check and no other, and a written boolean reads as itself |
| `JsonReader.FieldKindsExactly` | command-daemon/src/json.h:255-264 | the same for every value found on the way through a written object |
| `JsonText.EscapesOfTheStandard` | command-daemon/src/json.h:218-231 | the eight two-character escapes of RFC 8259, section 7, by code point, and no other |
| `JsonCursor.SkipString` | command-daemon/src/json.h:43-51 | the loop stops where the recursive scanner does, also when an escape runs over the end |
| `JsonCursor.SkipContainer` | command-daemon/src/json.h:55-66 | the depth-counting loop stops where the recursive scanner does |
| `JsonCursor.Cursor.Next` | command-daemon/src/json.h:72-110 | start and length of the next token, and the cursor left right after it |
| `JsonCursor.Cursor.Enter` | command-daemon/src/json.h:116-129 | narrows the cursor to the inside of a container token, ignoring blanks after it, or changes nothing |
| `JsonCursor.Cursor.EnterObject` | command-daemon/src/json.h:132-137 | succeeds exactly when the buffer begins with an object |
| `JsonCursor.Cursor.NextKey` | command-daemon/src/json.h:145-172 | key without quotes cut to the buffer, value token, and the cursor past both |
| `JsonCursor.GetStr` | command-daemon/src/json.h:208-235 | fills the buffer with the decoded string and its terminator, never past its end |
| `JsonCursor.ObjFindStr` | command-daemon/src/json.h:270-286 | the value-level lookup, result code -1 when there is no such string |
| `JsonWriter.Writer.Emit` | command-daemon/src/json-write.h:44-173 | the calls for a value tree, with the comma flag carried across them, append exactly that tree's text |
| `JsonWriter.Writer.WriteEscaped` | command-daemon/src/json-write.h:50-94 | appends the escaped string, or of a string over the limit the escape of head, marker and tail |
| `JsonWriter.Writer.StrN` | command-daemon/src/json-write.h:143-149 | appends a string value of the shortened text |
| `JsonWriter.Writer.Key` | command-daemon/src/json-write.h:122-127 | appends the key with its colon, a comma first if due, and clears the flag |
| `JsonWriter.EscapedConcat` | command-daemon/src/json-write.h:50-94 | escaping piece by piece is escaping the whole |
| `JsonWriter.ShortenedExactly` | command-daemon/src/json-write.h:50-94 | within the limit a string is left alone, beyond it half the limit stays at either end around the marker |
| `Framing.EndIsStable` | central-daemon/src/main.c:559-587 | the end found for an object is not moved by any later bytes, and none appears inside bytes already found incomplete |
| `Framing.EndIsContainerEnd` | central-daemon/src/main.c:559-587 | the framer's state machine and the reader's container scanner agree on where an object ends |
| `Framing.ScanContinues` | central-daemon/src/main.c:589-616 | scanning the unconsumed rest with new bytes behind it continues the scan of the whole stream |
| `Framing.FedIsScan` | central-daemon/src/main.c:659-667 | for every way of cutting a stream into reads, the objects dispatched and the bytes kept are those of one scan of the whole |
| `Framing.ScanExplained` | central-daemon/src/main.c:589-616 | any bytes are skipped gaps and complete objects by turns, a last gap and what is kept; every complete object is dispatched, and what is kept holds none |
| `Framing.EndOfWritten` | central-daemon/src/main.c:559-587 | an object written by the JSON writer is framed at its true closing brace, whatever its strings contain |
| `Framing.MessagesArrive` | central-daemon/src/main.c:589-667 | messages sent one a line are dispatched whole, in order and once each, however the reads cut them |
| `FramingClient.FindEndOfObject` | central-daemon/src/main.c:559-587 | the loop over depth, string and escape flags computes the recursive end |
| `FramingClient.ProcessJsonStream` | central-daemon/src/main.c:589-616 | dispatches the complete objects and reports how much was consumed |
| `FramingClient.Client.Grow` | central-daemon/src/main.c:641-658 | succeeds exactly when the bytes and a terminator stay within 1 MiB, and keeps the buffered bytes |
| `FramingClient.Client.HandleData` | central-daemon/src/main.c:618-667 | appends, dispatches and moves the rest down; a read that would pass the cap empties the buffer; an empty read closes |
| `FramingClient.Receive` | central-daemon/src/main.c:618-667 | a client whose reads stay under the cap gets one scan of all its bytes |
| `CentralText.JsonEscapeString` | central-daemon/src/main.c:147-165 | the escaped text with its terminator, or -1 exactly when some character finds too little room; a buffer of six bytes a character and one more never fails |
| `CentralText.UnescapeUndoesEscape` | central-daemon/src/main.c:325-383 | unescaping returns the original if and only if each character finds its room, control characters needing that of any \u escape; four spare bytes always suffice |
| `CentralText.UnescapeReadsWriter` | central-daemon/src/main.c:325-383 | it also returns every string that the command daemon's writer escapes |
| `CentralText.Utf8RoundTrip` | central-daemon/src/main.c:325-383 | the bytes emitted for a code point are its UTF-8 form in the shortest length, by an independent decoder (RFC 3629, section 3) |
| `CentralText.EscapeIsCodePoint` | central-daemon/src/main.c:325-383 | a four-digit escape, digits in either case, decodes to the UTF-8 form of the number it writes, whatever follows |
| `CentralText.UnknownEscapeIsKept` | central-daemon/src/main.c:373-379 | an escape without a meaning is kept, backslash and letter |
| `CentralText.JsonUnescape` | central-daemon/src/main.c:325-383 | the loop, with its four-digit fold and UTF-8 output, computes the decoded text or -1 |
| `CentralText.EscapedStays` | central-daemon/src/json.h:42-50 | between quotes an escaped string is skipped exactly and its brackets do not count |
| `CentralText.NoticeIsOneObject` | central-daemon/src/main.c:169-225 | a configuration notice is framed as one object, whatever path, key and value contain |
| `CentralNotice.NoticeReads` | central-daemon/src/main.c:203-216 | a notice reads back as its four fields in order, with the path, key and value it is about |
| `CentralNotice.NoticePartsDecode` | central-daemon/src/main.c:325-383 | each of these three decodes to the original when four bytes are to spare |
| `PersistCodec.PersistEscape` | central-daemon/src/trie.c:470-489 | a buffer of any size holds the escape of a prefix and a terminator, never half an escape |
| `PersistCodec.KeptIsLongest` | central-daemon/src/trie.c:470-489 | and no longer prefix would have fitted |
| `PersistCodec.KeptAll` | central-daemon/src/trie.c:470-489 | all is kept exactly when the whole escape fits |
| `PersistCodec.FormatLetters` | central-daemon/src/trie.c:474-486 | the letters on disk: five characters are escaped, all others stand for themselves |
| `PersistCodec.UnescapeUndoes` | central-daemon/src/trie.c:491-510 | unescaping an escape gives the source, cut to the destination |
| `PersistCodec.PersistUnescape` | central-daemon/src/trie.c:491-510 | the loop computes the unescaped text within its buffer |
| `PersistCodec.LineLoads` | central-daemon/src/trie.c:655-671 | a written line splits at its own separators and yields what the buffers kept of path, key and value |
| `PersistCodec.FileLoads` | central-daemon/src/trie.c:652-671 | a file of written lines loads to what survived of each setting, in order |
| `PersistCodec.SavedSettingsComeBack` | central-daemon/src/trie.c:549-671 | a file of lines short enough to be read whole loads to the settings saved if and only if each part fits its two buffers |
| `Bridge.RunSound` | api-gateway/main.go:999-1127 | every interleaving of producer, channels, contexts and consumer keeps the invariant of frames, channels and signals |
| `Bridge.RunFinished` | api-gateway/main.go:1025-1126 | once the consumer has returned with no failed write, the frames are enqueued chunks in order, a prefix of them, and exactly one terminal frame with its reason: a synthesised complete implies every enqueued chunk was forwarded, no error was sent and the producer has exited |
| `Bridge.RunForwards` | api-gateway/main.go:1025-1126 | until then, and after a failed write, the frames are a prefix of the enqueued chunks and nothing else |
| `Bridge.NothingAfterReturn` | api-gateway/main.go:1025-1126 | no frame follows the consumer's return |
| `Bridge.UndisturbedRunDelivers` | api-gateway/main.go:1078-1124 | with no error, cancellation or failing write the stream is delivered whole up to its complete, which is synthesised only if the provider sent none |
| `Bridge.ProducerNeverStuck` | api-gateway/main.go:1004-1023 | each signal channel carries at most one value ever, so the producer never waits on one, and once the consumer is gone an offered chunk can always be refused |
| `Bridge.NeverDeadlocked` | api-gateway/main.go:999-1127 | until the consumer returns, it or the producer can move or the provider is at work |
| `Bridge.ProducerDrains` | api-gateway/main.go:1004-1023 | after the consumer's return a producer out of its Stream call ends within two steps |
| `Bridge.RunRecorded` | api-gateway/main.go:1007-1026 | what was emitted is what the provider offered in this run, and an error that is written is one it returned or panicked with |
| `Bridge.CancelledCanEnd` | api-gateway/main.go:1036-1056 | once the request is cancelled the consumer can always return by its own steps, whatever the provider does |
| `SseSpec.RunSound` | api-gateway/providers/openai_compat.go:634-836 | for all lines at most one stop, nothing but a complete after it, at most one complete and only last, at most one start per tool call and before any identified arguments |
| `SseConservation.Conserved` | api-gateway/providers/openai_compat.go:730-813 | text, thoughts and arguments, by tool call or by the emitted tool index, come out as everything sent up to the finishing chunk if and only if no first choice carries text beside reasoning or a second source of thoughts, and no further choice carries anything |
| `SseConservation.EmitsKept` | api-gateway/providers/openai_compat.go:726-836 | slot by slot the output is what the code keeps of the first choices up to the finishing one, in order and nothing later; arguments are kept whole |
| `SseConservation.TextBesideThoughtIsLost` | api-gateway/providers/openai_compat.go:734-750 | a chunk with text and a thought emits the thought alone |
| `SseConservation.EmptyDetailLosesAll` | api-gateway/providers/openai_compat.go:734-772 | beside one empty reasoning detail text and thought are both dropped |
| `SseConservation.StartedExactly` | api-gateway/providers/openai_compat.go:787-799 | a tool call is started exactly if some live fragment gives it an id or a name |
| `SseConservation.IndexStartsOnce` | api-gateway/providers/openai_compat.go:774-799 | an emitted tool index starts at most once if and only if only one choice index ever names a call under it |
| `SseConservation.CallsKeptApart` | api-gateway/providers/openai_compat.go:774-813 | ids and names on tool emissions were sent for that very call |
| `SseConservation.CompleteCarriesUsage` | api-gateway/providers/openai_compat.go:664-669 | the complete comes from the first end marker and carries the latest usage reported alone before it |
| `SseConservation.StopIsGenuine` | api-gateway/providers/openai_compat.go:815-836 | every stop comes from a finish reason that is no context failure, with the chunk's own usage or the latest before it |
| `SseEndings.EndsByTheLines` | api-gateway/providers/openai_compat.go:815-836 | a run fails for its length exactly when the first deciding line is a finish with an exceeded reason; it emits a stop, and only one, exactly when that line is any other finish; and a complete exactly when an end marker is read and the stream has not failed |
| `SseEndings.LineOrdered` | api-gateway/providers/openai_compat.go:726-836 | what one line adds comes in order: text or thoughts, tool calls, stop |
| `SseEndings.ToolsTraced` | api-gateway/providers/openai_compat.go:774-813 | tool emissions, one by one and in order, are those the live fragments make: a start when a call is first identified, then each fragment's arguments, under the latest id and name |
| `SseParser.EndedAsRead` | api-gateway/providers/openai_compat.go:651-840 | the result read off the lines: a failing call, then what decides the stream, then an end marker, then how reading ended |
| `SseParser.EmitTool` | api-gateway/providers/openai_compat.go:774-813 | one fragment's calls of the callback, cut after one that fails |
| `SseParser.EmitChunk` | api-gateway/providers/openai_compat.go:726-836 | one chunk's calls of the callback, cut after one that fails |
| `SseParser.Parse` | api-gateway/providers/openai_compat.go:651-840 | the callback sees the automaton's output on the lines before cancellation, cut after the call that fails, and the result names the first thing that went wrong |
| `SseParser.SeenIsDisciplined` | api-gateway/providers/openai_compat.go:634-840 | the discipline holds of what the callback saw in every run, however it ends |
| `AnchorSpec.AnchorsDiffer` | di-core/src/util.rs:36-47 | two contents share a raw anchor exactly when their hashes agree in the low fifteen bits |
| `AnchorSpec.NumberedApart` | di-core/src/util.rs:82-84 | names with a number never equal raw ones, nor each other unless anchor and number agree |
| `AnchorSpec.Pigeonhole` | di-core/src/util.rs:143-152 | while every number tried is taken there are more names in use than numbers tried, so the search ends |
| `AnchorSpec.NewIndexSound` | di-core/src/util.rs:63-91 | a new index gives every line its own anchor, the three-character raw one or that with a number, for any hash function |
| `AnchorSpec.NewNameExactly` | di-core/src/util.rs:76-88 | a line of a new index has the raw anchor exactly when no other line does, else the number of earlier lines that do |
| `AnchorSpec.UpdatedNameExactly` | di-core/src/util.rs:140-153 | an edited line gets the raw anchor exactly when no other line bears it, else the least number that is free |
| `AnchorSpec.NumberedReadsBack` | di-core/src/util.rs:84 | a numbered name is the raw anchor, an underscore and the number in decimal |
| `AnchorSpec.AnchorValue` | di-core/src/util.rs:36-47 | the three digits, read in base 32, are the low fifteen bits of the hash |
| `AnchorSpec.UpdatedSound` | di-core/src/util.rs:126-157 | an edit keeps anchors unique and true to their lines |
| `AnchorSpec.AnyLifeSound` | di-core/src/util.rs:63-157 | so does any sequence of edits of any new index |
| `AnchorSpec.UneditedKeepsAnchor` | di-core/src/util.rs:126-157 | a line nobody edits keeps its anchor and its text |
| `AnchorIndex.AnchorHash` | di-core/src/util.rs:36-47 | the digit loop writes the three low base-32 digits, most significant first |
| `AnchorIndex.FileAnchorIndex.constructor` | di-core/src/util.rs:63-91 | two passes build the specified index with vector and map mutually inverse |
| `AnchorIndex.FileAnchorIndex.UpdateLine` | di-core/src/util.rs:126-157 | an in-place edit computes the specified index, keeps vector and map inverse and touches no other entry |
| `AnchorIndex.FileAnchorIndex.GetLineIdx` | di-core/src/util.rs:109-111 | finds the one line that bears the anchor, or nothing exactly when none does |
| `AnchorIndex.FileAnchorIndex.GetHash` | di-core/src/util.rs:94-96 | the line's anchor, empty when there is no such line |
| `AnchorIndex.FileAnchorIndex.GetLine` | di-core/src/util.rs:114-116 | the line's text, empty when there is no such line |
| `AnchorIndex.FreeName` | di-core/src/util.rs:140-153 | the raw anchor if free, else the least free number |
| `AnchorIndex.SearchIsShort` | di-core/src/util.rs:143-152 | the number found, counted from 0, is at least two below the number of lines |
| `AnchorIndex.Live` | di-core/src/util.rs:63-157 | a whole life of the index object follows the specification |
| `ToolPairing.AcceptsExactly` | api-gateway/providers/provider.go:667-762 | validation accepts exactly the well-shaped requests whose flattened calls and results never reopen an open id and never answer one that is not open |
| `ToolPairing.ReplayIsPairing` | api-gateway/providers/provider.go:687-760 | the set of pending ids tells exactly which calls have no answer yet |
| `ToolPairing.ValidateRequest` | api-gateway/providers/provider.go:667-762 | returns the first error in the order of the checks, with its position and id |
| `ToolErrors.ErrorIsFirst` | api-gateway/providers/provider.go:687-760 | an error about the history names the first message that is not in order, and the first call, result or block of it that is not, for the reason it gives |
| `ToolErrors.RequestErrorsFirst` | api-gateway/providers/provider.go:668-685 | an error about the request names the first of six limits that it breaks |
| `ToolMessages.AcceptedNeedsNoRepair` | api-gateway/providers/openai_compat.go:307-402 | an accepted history that keeps calls to assistant messages, does not mix legacy fields and has no bare tool message converts to one where each result follows its call, and repair leaves it unchanged |
| `ToolMessages.RepairsExactly` | api-gateway/providers/openai_compat.go:307-402 | for every request, repair changes nothing if and only if each result names a call that conversion keeps: a tool_use block of a message that is not the user's, or a legacy call of an assistant message without blocks, result or bare id |
| `ToolMessages.UserCallIsDropped` | api-gateway/providers/openai_compat.go:411-467 | a concrete history that validation accepts although repair rewrites it: the call stands in a user message and is dropped by conversion |
| `ToolMessages.SanitizedIdentity` | api-gateway/providers/openai_compat.go:362-402 | repair changes nothing if and only if no tool message lacks its call |
| `ToolMessages.SanitizedTwice` | api-gateway/providers/openai_compat.go:362-402 | repairing twice is repairing once |
| `ToolMessages.NoOrphansLeft` | api-gateway/providers/openai_compat.go:362-402 | after repair every tool message answers a call that is there |
| `ToolMessages.Sanitized` | api-gateway/providers/openai_compat.go:362-402 | repair keeps the number of messages |
| `ToolMessages.BareToolRoleIsRewritten` | api-gateway/providers/openai_compat.go:319-353 | a message that merely claims the tool role is always rewritten |
| `ToolMessages.AcceptedBareToolRole` | api-gateway/providers/provider.go:667-762 | although validation accepts such a message |
| `ToolMessages.SanitizeOrphans` | api-gateway/providers/openai_compat.go:362-402 | the two loops compute the repair |
| `ToolMessages.ConvertMessages` | api-gateway/providers/openai_compat.go:307-402 | system prompt, every message's conversion and the repair, which changes nothing exactly when no result is orphaned |
| `ToolMessages.ConvertUserBlocks` | api-gateway/providers/openai_compat.go:411-467 | tool results first, then one user message of the texts and the images, if any |
| `ToolMessages.ConvertAssistantBlocks` | api-gateway/providers/openai_compat.go:469-511 | one assistant message with joined text, calls and reasoning |
| `ToolContents.UserContents` | api-gateway/providers/openai_compat.go:411-467 | by place: each result block's id and content as a tool message, then each text block's text and each image's address in one user message |
| `ToolContents.AssistantContents` | api-gateway/providers/openai_compat.go:469-511 | by place: the text blocks' texts joined by line, the thoughts run together, each call's id, name and arguments |
| `ToolContents.LegacyContents` | api-gateway/providers/openai_compat.go:322-354 | a message without blocks keeps its content and calls, or carries its result's |
| `ToolContents.HistoryAnswers` | api-gateway/providers/openai_compat.go:307-356 | the tool messages of a whole history are its results, each with its own id and content, in order, after the system prompt |
| `ToolContents.RepairKeepsContent` | api-gateway/providers/openai_compat.go:382-397 | a repaired result names its id and ends with its whole content, and every other message is untouched |
| `ToolContents.JoinConcat` | api-gateway/providers/openai_compat.go:498 | joining puts the separator between neighbours and nowhere else |

## Left out

- Allocation failure in every C component: some counters are not rolled back there. The growth of
  the wait-queue and registry arrays is therefore not modelled; both are sequences.
- File descriptors below 0 as lock owners: -1 marks an unowned node, and callers pass real descriptors.
- `trie_destroy` and pruning: nodes are never removed while the daemon runs, because pruning is only
  started at the root, which it never removes.
- The tree walk that saves settings: its path prefix never grows past "/", so a saved tree does not
  load as it was. The line codec and whole files of lines are modelled, the walk is not.
- Client slots of the central daemon and its output buffering, where a direct write can overtake
  buffered bytes; the release reply, which names the released path and not the granted one.
- FramingClient.Receive: is stated for reads under the 1 MiB cap; a read over it empties the buffer, which `Client.HandleData` states.
- Framing.MessagesArrive: is stated for messages one a line from a writer of valid objects; other bytes between objects are covered by `FedIsScan`.
- JsonWriter.Writer.Emit: is stated for single values, its keys written as they are; the reading lemmas ask that keys hold no quote and no backslash, as the writer's callers guarantee.
- JsonCursor.Cursor.NextKey: returns the key as a value; the copy into the caller's fixed buffer is modelled by its length only.
- Floating-point text is whatever the C library's six-decimal format prints; the extractors for doubles and booleans only convert.
- Bridge.RunFinished: has no claim about terminal frames whose own write fails; those runs fall under `RunForwards`.
- SseParser.Parse: starts from lines already decoded; JSON decoding, the 256 KiB line limit and content arrays are inputs.
- SseSpec.RunSound: speaks of tool calls by choice and tool index, while the emitted chunk carries only the tool index; `SseConservation.IndexStartsOnce` says when that is the same.
- SseConservation.Conserved: counts what is sent up to the finishing chunk; anything after the stop is not forwarded at all.
- ToolMessages.AcceptedNeedsNoRepair: gives the order of calls and results only for tidy histories; when repair is the identity is exact in `RepairsExactly`.
- Names of pending tool calls are kept by the validation loop but never read, so they are not part of its specification.
- Reasoning injection, tool schemas and all other provider settings.
- Think-tag and MiniMax text pipes: they trim and drop partial tags, so nothing is conserved.
- The terminal UI and its line cache, which recomputes only its last block although an earlier one can change.
- Rate limiter, limiter table, model cache, retry loop, session store, recent-files ring: sound but easy.
- HTTP, sockets, epoll, processes, signals, logging, OAuth, directory walking.
