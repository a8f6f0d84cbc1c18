# An SSH jump host for Kubernetes pods: its state machines, verified

The repository lets users log in over SSH, pick a pod from a list and share the session with others, also across
nodes. This project models the parts of it that keep state and proves what they promise.

* **Line editor** (`LineEditor`, `Terminal`, `History`, `KeyDecoder`, `LineReader`). `Terminal.Terminal` is the
  terminal in its own form: a rune array with spare capacity, fields updated in place, loops. Each of its methods is
  proved equal to a function on values in `LineEditor` or `LineReader`, and the properties are proved about those: the
  cursor arithmetic (`CursorInvariant`), what a screen shows (`Screen`, `Painting`), what the word and deletion keys
  mean (`EditLaws`), what raw output and resizes leave (`RawOutput`), what reads may split and the history keeps
  (`LineReader`, `EndToEnd`) and that typed text is returned (`Typing`). `Screen` is an independent reference: an
  emulator for the control functions of ECMA-48 (sections 8.3.18 to 8.3.22, 8.3.39, 8.3.41) with deferred wrap and
  unbounded rows.
* **Session bridge** (`Rechunker`, `Relay`). The UTF-8 re-chunker (sections 3 and 4 of RFC 3629) as a class, and the
  goroutines around it as a state machine whose runs are all their interleavings.
* **Room exchange** (`Room`, `Cache`, `Join`, `JoinOutcome`, `CrossNode`, `SharedSession`). The room actor with its replay
  ring, the cache actor, the join requests of the multi-node manager and the relay over publish/subscribe.
  `SharedSession` puts room actors on both ends of the relay, so that its results speak of what rooms broadcast and
  viewers are written.
* **Table, pager, completion** (`Table`, `Pager`, `Completion`).

`Utf8` holds Go's UTF-8 functions, `Wrapping` division with remainder by recursion. Go's `int` is modelled unbounded:
all counts here are bounded by the size of data in memory. A callback that completes a line is a function of line,
position and key whose result must be a position inside its line, as a slice expression in the source demands, and one
that counts no more runes than the line has: cut inside a rune the prefix can count more (one per byte), and the source
would then index its line past the end. "Run" always means any finite sequence of enabled steps from the initial state.

False of the code, each with an input that shows it and the condition that decides it: chunks are well-formed only if
unbuffered reads end on rune boundaries (`Rechunker.TornRune`, `Rechunker.ChunksWellFormed`); a buffered read can hold
back a whole rune, if it is U+FFFD (`Rechunker.ReplacementIsHeld`, `Rechunker.HeldBack`); two users can share one
presence key (`Room.UsersMerge`, `Room.SessionsKeptApart`); keys typed without echo print nothing, except Ctrl-K
(`EditLaws.SilentWithoutEcho`); a cell cut at its beginning hardly ever fits (`Table.PrefixTooWide`,
`Table.PrefixCell`); previous after next does not restore a page from a short last page (`Pager.ShortLastPage`,
`Pager.BackAfterForward`); a completion can end inside a rune (`Completion.TornCompletion`,
`Completion.CompletionIsWhole`); U+FFFD in the input holds up the keys behind it (`LineReader.ReplacementRuneDelays`,
`KeyDecoder.DropsExactly`, `LineReader.DrainLeavesKey`); of two joins that share an id one or both can no longer be
answered (`JoinOutcome.SharedIdRun`, `JoinOutcome.BothLose`): a waiting call can be answered exactly as long as no
join with its id was registered, no other call with its id cancelled and no exit with its id failed
(`JoinOutcome.AnswerableExactly`); after a failed write the cursor is right only for position 0
(`CursorInvariant.FailedWriteCursor`).

## Model

| member | source | states |
|---|---|---|
| `Painting.ScreenRefinement` | pkg/terminal/treminal.go:238-621 | any keys, with pastes of glyphs and Enters among them, from a blank screen: the bytes written, decoded and run through an independent ECMA-48 emulator with deferred wrap, show prompt, line and then blanks, with the cursor on the cell of the line position |
| `EndToEnd.BytesToScreen` | pkg/terminal/treminal.go:790-868 | the same from input bytes: however reads divide a well-formed input whose pastes are glyphs and Enters, the session ends in the state the decoded keys give, and its output displays prompt and edited line |
| `EndToEnd.PumpFeedsKeys` | pkg/terminal/treminal.go:801-833 | the reader is the composition of handleKey over the keys decoded, paste brackets, prompts and history included; what joins the history is stated by LineReader.LineIsRemembered |
| `LineReader.ChunkingIndependence` | pkg/terminal/treminal.go:790-868 | for well-formed UTF-8 without U+FFFD and no escape sequence as long as the 256-byte buffer: lines, paste indications, end-of-input reports, final state and output are the same for any two ways reads divide the input |
| `Typing.TypedLineIsRead` | pkg/terminal/treminal.go:716-868 | what is typed is what is read: any number of plain runes and Enter, in any reads, are returned as exactly that text, cut after 4096 runes, once, and not as pasted |
| `Typing.PastedLineIsRead` | pkg/terminal/treminal.go:202-208 | what is pasted is what is read: a bracketed paste of any length, control characters included, in any reads, is returned as exactly that text, once, and as pasted |
| `LineReader.LineIsRemembered` | pkg/terminal/treminal.go:843-846 | a line returned with echo on is the newest entry of the history and nothing else is added, with echo off or without a line nothing is; at the next prompt Up shows that line with the cursor at its end |
| `LineReader.SessionIsRemembered` | pkg/terminal/treminal.go:790-868 | over a session the history grows by exactly the lines returned, in order; with echo off not at all |
| `Typing.SequenceDecodes` | pkg/terminal/treminal.go:176-204 | the sequence a terminal sends for a cursor or word key, or a paste start, is decoded to that key, whatever follows |
| `Typing.PasteEndDecodes` | pkg/terminal/treminal.go:206-208 | the closing bracket ends a paste, whatever follows |
| `Typing.RuneDecodes` | pkg/terminal/treminal.go:168-174 | a rune that is no control key is decoded to itself, whatever follows, in both paste modes |
| `Typing.ControlDecodes` | pkg/terminal/treminal.go:144-166 | each control byte, written out, is decoded to its key, whatever follows; every other byte below 0x80 but escape to itself, and in a paste all of those |
| `Typing.UnknownDecodes` | pkg/terminal/treminal.go:214-220 | any other escape sequence is one unknown key up to its first letter or tilde |
| `Typing.CtrlDEnds` | pkg/terminal/treminal.go:811-817 | Ctrl-D on an empty line outside a paste is the end of input, on any other line it is a key |
| `Typing.UnboundKey` | pkg/terminal/treminal.go:581-587 | outside a paste a key that is neither bound nor printable changes nothing, not even the screen |
| `LineReader.ReplacementRuneDelays` | pkg/terminal/treminal.go:806-809 | why U+FFFD is excluded: with it in front, an Enter in the same read waits for another read, in the next read it ends the line |
| `KeyDecoder.DropsExactly` | pkg/terminal/treminal.go:142-221 | on any input, asking for more input loses bytes if and only if a complete rune at the front decodes to U+FFFD |
| `LineReader.DrainLeavesKey` | pkg/terminal/treminal.go:804-833 | on any input: after a drain that asks for more, a key can still be decoded from what is left if and only if the drain stopped at a complete U+FFFD, dropped it, and a key comes right behind it |
| `LineReader.FullEscapeStalls` | pkg/terminal/treminal.go:855-866 | what LoopDoesNotStall excludes happens: after 256 bytes of one unfinished escape sequence no read can bring anything |
| `KeyDecoder.BracketMode` | pkg/terminal/treminal.go:202-208 | a paste start is decoded only outside a paste, a paste end only inside one |
| `LineReader.PasteIndicator` | pkg/terminal/treminal.go:799-851 | on any input, with the keys labelled by the paste brackets among them: ErrPasteIndicator only for a line all of whose runes, and its Enter, came between paste start and paste end, and always when all keys of the call did; the call leaves an empty line, and the paste open or not as the brackets say |
| `CursorInvariant.CursorAlwaysOk` | pkg/terminal/treminal.go:238-956 | under any sequence of keys, paste starts and ends, raw output and resizes, in any order, the cursor invariant holds in every state |
| `CursorInvariant.CursorOffset` | pkg/terminal/treminal.go:238-270 | what the invariant says: cursorY * termWidth + cursorX = visualLength(prompt) + pos, 0 <= cursorX < termWidth, pos <= len(line), cursorY <= maxLine |
| `Painting.ClearScreenPaints` | pkg/terminal/treminal.go:558-564 | Ctrl-L repairs the display: whatever the screen showed and wherever its cursor was, it shows prompt and line from row 0 and the cursor is right |
| `Rechunker.Conservation` | pkg/proxy/switch.go:116-141 | over any reads: the chunks sent followed by the buffer are the bytes read, and the buffer holds at most three |
| `Rechunker.ChunksWellFormed` | pkg/proxy/switch.go:117-141 | on a stream that continues to well-formed UTF-8, all chunks are well-formed if and only if every read that finds nothing pending and is not 1024 bytes long ends on a rune boundary |
| `Rechunker.BufferedChunkIsWhole` | pkg/proxy/switch.go:122-141 | on such a stream a read that finds bytes pending, or is 1024 bytes long, never tears a rune: its chunk is well-formed whenever those before it are |
| `Rechunker.HeldBack` | pkg/proxy/switch.go:126-141 | what such a read holds back is the incomplete beginning of one rune or nothing, and a whole rune, U+FFFD, if and only if the bytes at hand end in it |
| `Rechunker.ReplacementIsHeld` | pkg/proxy/switch.go:129-133 | a read of 1024 bytes that ends in U+FFFD: the whole rune is held back |
| `Rechunker.TornRune` | pkg/proxy/switch.go:119-125 | two one-byte reads of one two-byte rune: both chunks are ill-formed although the stream is not |
| `Relay.ServerOutputIsPrefix` | pkg/proxy/switch.go:142-147 | in every interleaving, what the user is shown of the server output is a prefix of it, byte for byte and chunk for chunk; until the bridge has left, the rest is exactly what is in the channels, in hand and in the buffer |
| `Relay.UserInputIsPrefix` | pkg/proxy/switch.go:291-297 | in every interleaving, what is written to the server is, byte for byte, a prefix of the bodies of the data messages received, and no write is empty; until the bridge has left, the rest is exactly the bytes in the channels and in hand |
| `Relay.EverythingCanArrive` | pkg/proxy/switch.go:107-160 | no deadlock: from every reachable state in which the bridge loops, with nothing new coming in, all that was read can be shown but for the buffer, and all that was typed written if the parser still runs |
| `Relay.NextCanArrive` | pkg/proxy/switch.go:321-365 | nobody is shut out: from every such state the next message can be received and written while the parser runs, and the next server output read and shown while the reader runs |
| `Relay.ShownIsWellFormed` | pkg/proxy/switch.go:107-160 | re-chunker and relay together: if reads that find nothing pending and are not 1024 bytes long end on rune boundaries, every message of server output shown is well-formed |
| `Relay.InvStep` | pkg/proxy/switch.go:321-365 | each step of reader, parser and bridge keeps the flow invariants and the channel capacities |
| `Join.EachCallerItsOwn` | pkg/exchange/redis.go:533-550 | in every interleaving of callers, timeouts, cancels and late or duplicate success messages, a caller holds the channel made for its own request and an answer carries its own id; a join is answered with its own room if and only if it did not fail, an exit never with a room |
| `Join.NeverBlocks` | pkg/exchange/redis.go:298-342 | no response channel is sent to twice, and whatever run is about to send to is empty, so run never blocks on a response |
| `JoinOutcome.AnswerableExactly` | pkg/exchange/redis.go:298-342 | in every run, some continuation answers a waiting call if and only if no step so far lost its entry: the registration of a join with its id, the cancel of another call with its id, or a failed exit with its id; and some continuation ends it as a join with its own room if and only if besides no failure lies in its channel |
| `JoinOutcome.DistinctIdsAnswerable` | pkg/exchange/redis.go:298-342 | as long as no two calls in flight share an id, every waiting call is being served, registered or answered already, and can still be answered, with its own room unless a failure lies in its channel |
| `JoinOutcome.JoinedIsCached` | pkg/exchange/redis.go:304-312 | a room joined stays at hand until it is gone: later joins of it are answered from the cache and need no other node |
| `JoinOutcome.LosesNeedsSharedId` | pkg/exchange/redis.go:340-341 | a step that loses an entry belongs to another call in flight with the same id |
| `JoinOutcome.DeadRun` | pkg/exchange/redis.go:369-379 | an unused channel that is not served and registered nowhere stays so whatever happens |
| `JoinOutcome.SharedIdLosesChannel` | pkg/exchange/redis.go:323 | the registration of a second join under one id loses the first channel for good, in every continuation |
| `JoinOutcome.SharedIdRun` | pkg/exchange/redis.go:525-527 | a run of two callers asking for one room within a second: both wait, only the second is registered, the first one's channel is lost |
| `JoinOutcome.BothLose` | pkg/exchange/redis.go:340-341 | and when the first then times out and cancels, it removes the second one's entry: both are lost while the second still waits |
| `Join.GuardsHold` | pkg/exchange/redis.go:369-422 | every channel registered or being served exists, so the guards of the model hold no step back |
| `Join.InvStep` | pkg/exchange/redis.go:289-342 | every step keeps: channels used at most once, registered at most once and under the id of their request, held by the caller they were made for |
| `CrossNode.ProxyFollowsOwner` | pkg/exchange/redis_proxy.go:42-52 | from its subscription on, a proxy takes exactly what the owner room hands its relay connection, in order and once; the rest is queued |
| `CrossNode.OwnerFollowsProxy` | pkg/exchange/redis_proxy.go:84-91 | the owner takes what is typed at a proxy that joined after it, in order and each once; the rest is queued as long as it listens |
| `CrossNode.QueueCanEmpty` | pkg/exchange/redis_proxy.go:42-52 | an end that listens can take all that is queued for it, in order |
| `CrossNode.RelayedAsBroadcast` | pkg/exchange/room_message.go:213-234 | what reaches the other rooms of a broadcast message: data with its body, any other event as it is, a ping as empty data |
| `SharedSession.ViewerHearsOwner` | pkg/exchange/redis_proxy.go:9-56 | in every run of rooms and relay, all bodies written to a viewer of a proxy room, replay included, are one contiguous stretch of those the owner room wrote to its relay connection |
| `SharedSession.ViewerHearsRoom` | pkg/exchange/redis_proxy.go:58-94 | and, no ping being broadcast (nothing in the repository does), one contiguous stretch of the data bodies broadcast in the owner room |
| `SharedSession.RelayHearsRoom` | pkg/exchange/redis_proxy.go:63-64 | what the owner room handed its relay connection is its room's log of it, and the bodies are the room's data bodies from five before it came on |
| `SharedSession.ViewerFollowsOwner` | pkg/exchange/redis_proxy.go:9-56 | everything a viewer is handed is the greeting and then a contiguous stretch of what the owner room showed, once each and in order |
| `SharedSession.ProxyCanCatchUp` | pkg/exchange/redis_proxy.go:42-52 | from every reachable state a connected proxy can come to have broadcast all that the owner room showed since it subscribed |
| `SharedSession.NextReachesViewers` | pkg/exchange/redis_proxy.go:9-94 | from every reachable state in which both are connected, whatever is broadcast next in the owner room can reach the proxy room, data with its body, other events unchanged |
| `SharedSession.TypedCanBeHeard` | pkg/exchange/redis_proxy.go:84-91 | what is typed at a connected proxy can reach the connected owner, behind all that is queued there |
| `SharedSession.RoomsCanLink` | pkg/exchange/redis_proxy.go:9-94 | in any state a running room that has no relay connection yet can be shared and followed from another node |
| `SharedSession.WrittenIsStretch` | pkg/exchange/room_message.go:130-181 | in one room, replay and live part join without gap or repeat: the bodies written to a connection are one stretch of the data bodies broadcast |
| `SharedSession.InvStep` | pkg/exchange/redis_proxy.go:9-94 | every step keeps the rooms at both ends tied to what the relay showed and delivered |
| `CrossNode.OnlyFromTheOtherSide` | pkg/exchange/redis.go:394-416 | everything delivered on a read channel was published by the other side of the same room: viewer input reaches only the owner, and no side hears itself |
| `CrossNode.NamesAreInjective` | pkg/exchange/redis.go:588-590 | the .read and .write names tell rooms and directions apart for any room ids |
| `Room.ReplayThenLive` | pkg/exchange/room_message.go:130-181 | for every history: a fresh connection is handed the ZMODEM notice if due, the last five data bodies broadcast before it came, the online users, every message until it leaves, once and in order, and nothing after |
| `Room.RecentIsLastData` | pkg/exchange/room_message.go:161-163 | the ring holds exactly the last five data messages broadcast |
| `Room.PresenceIsLast` | pkg/exchange/room_message.go:164-179 | the online-user map and the ZMODEM flag are what the broadcast history says last |
| `Room.JoinedIsOnline` | pkg/exchange/room_message.go:164-169 | after a join message its user is online with that message's data, and everybody else as before |
| `Room.SessionsKeptApart` | pkg/exchange/room_message.go:164-169 | sessions whose creation times are written equally long share a key only if user and time are the same |
| `Room.UsersMerge` | pkg/exchange/room_message.go:164-169 | times of different lengths can give two users one key |
| `Room.ConnectedIsLastWord` | pkg/exchange/room_message.go:130-154 | connected is exactly who subscribed and did not unsubscribe since |
| `Room.TickEnds` | pkg/exchange/room_message.go:118-122 | the room ends exactly at a tick when nobody is connected |
| `Room.LiveDeliveries` | pkg/exchange/room_message.go:155-180 | a subscribed connection receives each broadcast once and in order |
| `Room.NoDeliveries` | pkg/exchange/room_message.go:152-154 | a connection not subscribed receives nothing, whatever happens |
| `Cache.CacheIsLinearizable` | pkg/exchange/local.go:37-63 | for any number of callers and any interleaving, Add, Delete and Get take effect atomically on one plain map between call and return; a Get never returns another key's answer |
| `Cache.OneWaiter` | pkg/exchange/local.go:60-63 | whenever a caller waits on the shared result channel, an answer is being offered and no other caller waits |
| `Cache.EveryCallCanReturn` | pkg/exchange/local.go:37-63 | no call is stuck: from every reachable state some continuation returns it |
| `Cache.EveryCallWorks` | pkg/exchange/local.go:37-63 | from every reachable state an idle caller can make any call and get it done |
| `Table.WrapperTable.CalculateColumnsSize` | pkg/common/table.go:79-163 | for any order of map iteration the loop ends with the widths either at their natural values (no total given, or they sum to it) or balanced: the sum is the total or no column can change |
| `Table.WrapperTable.Redistribute` | pkg/common/table.go:129-162 | sum plus step times what is left is conserved, and the loop ends with nothing left or nothing adjustable |
| `Table.BalancedBounds` | pkg/common/table.go:136-151 | fixed and unlisted columns keep their width; growing never passes a maximum and shrinking never a minimum |
| `Table.BalancedFair` | pkg/common/table.go:155-161 | columns still adjustable at the end changed by amounts that differ by at most one |
| `Table.BalancedCapped` | pkg/common/table.go:155-161 | a column that reached its bound moved at most one further than any that could go on |
| `Table.BalancedExit` | pkg/common/table.go:129-162 | if the width is not used up exactly, every column that is not fixed is at its maximum or, when shrinking, its minimum |
| `Table.NaturalMeans` | pkg/common/table.go:79-109 | exactly the columns with data get a width: the fixed size, else the widest value moved to the nearer bound, 0 being no bound |
| `Table.ValidPartLongest` | pkg/common/table.go:194-213 | GetValidString returns the longest well-formed prefix ending at or before, or suffix starting at or after, a position in range |
| `Table.ValidPartNear` | pkg/common/table.go:194-213 | on well-formed text it gives up at most three bytes |
| `Table.CellWithin` | pkg/common/table.go:165-192 | a value that fits is shown whole, one that does not fit not at all without a policy; cut at the end or in the middle a cell never exceeds a column of three or more and is valid UTF-8 if the value is |
| `Table.SuffixCell` | pkg/common/table.go:175-177 | the cell is valid UTF-8, a prefix of the value and the ellipsis; it fits if and only if the column is at least three wide, wasting at most three |
| `Table.MiddleCell` | pkg/common/table.go:181-184 | the cell is valid UTF-8, a prefix and a disjoint suffix of the value around the ellipsis; it fits if and only if the column is at least three wide |
| `Table.PrefixCell` | pkg/common/table.go:178-180 | for well-formed values the cell fits if and only if the column is at least three wide and the value at most two bytes too long, and then nothing of the value is kept |
| `Pager.EveryPageOk` | pkg/handler/select_handler.go:58-65 | after a search and any moves the page is a page of the store whose offset is 0 or the total modulo the page size; hasNext exactly when rows are left, hasPre exactly beyond the first page |
| `Pager.SearchShowsEverything` | pkg/handler/select_handler.go:286-291 | moving on from a search shows every matching row once and in order, and stops |
| `Pager.ShortLastPage` | pkg/handler/interactive_handler.go:232-238 | five rows in pages of two: previous from the last page shows a page that begins one row too early |
| `Table.PrefixTooWide` | pkg/common/table.go:178-180 | six letters cut at the beginning for a column of three give a cell of nine |
| `Pager.BackAfterForward` | pkg/handler/interactive_handler.go:230-241 | previous after next restores the page if and only if the page moved to was full or the page moved from the first |
| `Completion.CompletionInLine` | pkg/terminal/treminal.go:567-579 | a completing key leaves the cursor at the end of a line that extends the typed runes, and the line is the completion if and only if that does not end inside a rune of the names that match |
| `Completion.CompletionExtends` | pkg/handler/select_handler.go:100-119 | the completed text extends the typed one and is a prefix of every candidate |
| `Completion.CompletesExactly` | pkg/handler/select_handler.go:104-114 | there is a completion if and only if the line is not empty and some suggestion starts with it |
| `Completion.CompletionPlaces` | pkg/terminal/treminal.go:567-579 | for any callback: the cursor put between two well-formed parts of the new line stands between their runes |
| `Completion.CompletionIsWhole` | pkg/handler/select_handler.go:105-114 | for well-formed names the completion is well-formed if and only if one, and then every, matching name has a rune boundary where their common prefix ends |
| `Completion.TornCompletion` | pkg/handler/select_handler.go:105-114 | two names that part inside a rune complete to a torn one, which becomes U+FFFD in the line |
| `History.UpsThenDowns` | pkg/terminal/treminal.go:490-516 | k Ups and k Downs restore the unfinished line with the cursor at its end (runes that are no scalar values become U+FFFD), or change nothing without history |
| `History.UpsShow` | pkg/terminal/treminal.go:490-500 | k Ups show the k-th newest entry, or the oldest one kept, and remember the unfinished line |
| `History.DownsShow` | pkg/terminal/treminal.go:501-516 | from the k-th newest entry j Downs show the one j newer |
| `History.HandleKeyIndex` | pkg/terminal/treminal.go:446-590 | -1 <= historyIndex < number of entries kept, whatever key is pressed, also after a line is recorded |
| `Utf8.DecodeEncode` | pkg/terminal/treminal.go:225 | runes written as bytes are well-formed and read back, but for those that are no scalar values |
| `Utf8.EncodeDecode` | pkg/terminal/treminal.go:499-500 | well-formed bytes survive being read as runes and written again |
| `Utf8.ValidIffRoundTrip` | pkg/common/table.go:202 | utf8.ValidString holds exactly when the round trip through runes is the identity |
| `Utf8.SplitValid` | pkg/common/table.go:206 | decoding and validity split at the end of a well-formed prefix |
| `KeyDecoder.KeyPrefixStable` | pkg/terminal/treminal.go:142-221 | a decoded key and where it ends do not depend on the bytes behind it, in both paste modes |
| `KeyDecoder.RestIsSuffix` | pkg/terminal/treminal.go:142-221 | what is left over is a suffix of the input |
| `KeyDecoder.CleanKey` | pkg/terminal/treminal.go:142-221 | on well-formed input without U+FFFD asking for more leaves the input alone |
| `KeyDecoder.WaitingShape` | pkg/terminal/treminal.go:214-220 | what can fill the buffer undecoded is an escape sequence without a final byte |
| `KeyDecoder.KeyIsNotEscape` | pkg/terminal/treminal.go:168-220 | the escape character never reaches the line |
| `LineReader.SessionIsPump` | pkg/terminal/treminal.go:790-868 | successive calls are one pass over the undivided input |
| `LineReader.LoopIsPump` | pkg/terminal/treminal.go:801-867 | one call is the beginning of that pass |
| `LineReader.LoopDoesNotStall` | pkg/terminal/treminal.go:855-866 | without an escape sequence as long as the buffer there is always room to read into |
| `LineReader.HandleKeyEnds` | pkg/terminal/treminal.go:517-535 | exactly Enter, and Ctrl-C outside a paste, end a line: Enter returns exactly the line, Ctrl-C an empty one |
| `Wrapping.RowColIsDivMod` | pkg/terminal/treminal.go:333-339 | the rows and columns of the model are Go's quotient and remainder |
| `Screen.InterpCsi` | pkg/terminal/treminal.go:272-311 | a printed decimal count reaches the emulator as that count |
| `Screen.PrintGlyphs` | pkg/terminal/treminal.go:610-621 | glyphs printed from any cell fill the cells after it in order and leave all others alone, across wraps |
| `Painting.InterpMoves` | pkg/terminal/treminal.go:272-311 | the sequence printed by move takes the cursor exactly from one cell to the other |
| `Painting.AdvanceDraws` | pkg/terminal/treminal.go:333-354 | the newline sent after the last column brings a deferred-wrap cursor to where the editor counts it |
| `Painting.WriteLineDraws` | pkg/terminal/treminal.go:610-621 | writeLine overwrites exactly the cells of its runes and leaves the cursor behind them |
| `Painting.SetLinePaints` | pkg/terminal/treminal.go:320-331 | setLine shows the new line and blanks out the rest of a longer old one |
| `Painting.AddKeyPaints` | pkg/terminal/treminal.go:594-608 | inserting a key keeps the display |
| `Painting.ErasePaints` | pkg/terminal/treminal.go:356-377 | erasing before the cursor keeps the display, the freed cells blank |
| `Painting.DeleteLinePaints` | pkg/terminal/treminal.go:539-547 | deleting to the end of the line keeps the display, the freed cells blank |
| `Painting.EndLinePaints` | pkg/terminal/treminal.go:517-535 | Enter and Ctrl-C leave the cursor at the left edge of a row with nothing from there down |
| `Painting.HandleKeyPaints` | pkg/terminal/treminal.go:446-590 | any single key, in a paste a glyph or Enter, keeps the display or ends the line below it |
| `RawOutput.HideLineBlanks` | pkg/terminal/treminal.go:662-672 | before raw output exactly the rows from the first of the display to the cursor's are blanked, whatever is below |
| `RawOutput.WriteRedraws` | pkg/terminal/treminal.go:652-695 | behind raw output that leaves the cursor at the left edge with nothing below, prompt and line are shown in full with the cursor in place |
| `RawOutput.QuietWrite` | pkg/terminal/treminal.go:656-660 | with nothing displayed the editor adds nothing to raw output |
| `RawOutput.RepaintPaints` | pkg/terminal/treminal.go:878-897 | a repaint of at least the rows in use shows prompt and line in full and nothing else below the first row |
| `RawOutput.WiderPaints` | pkg/terminal/treminal.go:942-950 | growing a terminal that leaves its rows as they are: the display is laid out anew for the new width from the same row |
| `RawOutput.NarrowerPaints` | pkg/terminal/treminal.go:925-941 | shrinking one that wraps every row into two: the display is shown in full again |
| `RawOutput.QuietResize` | pkg/terminal/treminal.go:916-924 | the same width, or nothing displayed: nothing is printed |
| `CursorInvariant.HandleKeyCursor` | pkg/terminal/treminal.go:446-590 | any key in any paste mode keeps the cursor on the cell of the position, or resets it with the line |
| `CursorInvariant.WriteCursor` | pkg/terminal/treminal.go:652-695 | raw output draws prompt and line again with the cursor in place |
| `CursorInvariant.FailedWriteCursor` | pkg/terminal/treminal.go:674-676 | after a Write whose first step fails, the next prompt leaves the cursor right if and only if the position is 0 |
| `CursorInvariant.ResizeCursor` | pkg/terminal/treminal.go:878-956 | resizing re-establishes the invariant for the new width in every branch |
| `CursorInvariant.HandleKeyContents` | pkg/terminal/treminal.go:446-590 | line, history and pending line never hold a rune that was not typed, recalled, completed, or U+FFFD |
| `EditLaws.WordLeftMeaning` | pkg/terminal/treminal.go:381-402 | countToLeftWord lies in 1..pos and covers the spaces before the cursor and the word before those, as long as they last; index 0 is never inspected |
| `EditLaws.WordRightMeaning` | pkg/terminal/treminal.go:406-421 | countToRightWord stays in the line and covers the rest of the word and the spaces after it, as long as they last |
| `EditLaws.MotionKeepsLine` | pkg/terminal/treminal.go:458-489 | the cursor keys keep the line and put the cursor where they say |
| `EditLaws.MotionsAgree` | pkg/terminal/treminal.go:458-489 | Home, End and the word keys are so many presses of the arrow keys |
| `EditLaws.DeletionMeaning` | pkg/terminal/treminal.go:453-557 | what each deletion leaves before and after the cursor |
| `EditLaws.DeletionsAgree` | pkg/terminal/treminal.go:536-557 | Ctrl-U, Ctrl-W and Ctrl-K are so many backspaces or forward deletions, also after Home or the word key |
| `EditLaws.TypeThenBackspace` | pkg/terminal/treminal.go:594-608 | typing a key and erasing it gives the line back, wherever the cursor was |
| `EditLaws.EscapesAreInvisible` | pkg/terminal/treminal.go:424-442 | an escape sequence in a prompt takes no column |
| `EditLaws.SilentWithoutEcho` | pkg/terminal/treminal.go:446-590 | with echo off a key prints nothing but the new row of a finished line, the prompt of Ctrl-L and the blanks of Ctrl-K |
| `Relay.ServerFlowStep` | pkg/proxy/switch.go:278-289 | each step keeps every chunk accounted for, in order |
| `Relay.UserFlowStep` | pkg/proxy/switch.go:334-350 | each step keeps every user message accounted for, in order; Relay.UserInputIsPrefix says the same in bytes |
| `Relay.InputFlowStep` | pkg/proxy/switch.go:117-147 | each step keeps the reads, the chunks sent and the buffer in step |
| `Completion.LcpIsLongest` | pkg/utils/strings.go:27-61 | the fold of pairwise common prefixes is the longest one |
| `Completion.SearchIsLcp` | pkg/utils/strings.go:50-60 | the binary search and the fold agree |
| `Completion.CommonIsMonotone` | pkg/utils/strings.go:32-40 | shorter prefixes of a common prefix are common: the test the search halves on is monotone |
| `Completion.MatchingExact` | pkg/utils/strings.go:16-25 | FilterPrefix keeps exactly the strings that start with the given one |
| `Pager.HasNextExact` | pkg/handler/select_handler.go:148-171 | from the page counts: there is a next page exactly when rows are left |
| `Pager.PagesHold` | pkg/handler/page_info.go:24-47 | so many pages hold all the rows and one fewer does not |
| `Pager.PagingStaysOk` | pkg/handler/select_handler.go:148-177 | search, next and previous never leave the pages described |
| `Pager.PageBeforeNextIsFull` | pkg/handler/select_handler.go:148-177 | a page with a next one is full |
| `Terminal.Terminal.constructor` | pkg/terminal/treminal.go:99-109 | the state NewTerminal makes |
| `Terminal.Terminal.QueueRunes` | pkg/terminal/treminal.go:224-226 | the runes join the output as UTF-8 |
| `Terminal.Terminal.CountGlyphs` | pkg/terminal/treminal.go:424-442 | visualLength counts the glyphs outside escape sequences |
| `Terminal.Terminal.Move` | pkg/terminal/treminal.go:272-311 | queues the sequences for the four directions, counts above one in decimal |
| `Terminal.Terminal.MoveToPosition` | pkg/terminal/treminal.go:238-270 | nothing without echo, else the relative move to quotient and remainder of the cell |
| `Terminal.Terminal.Advance` | pkg/terminal/treminal.go:333-354 | the cursor moved on, a newline exactly when it lands on column 0 |
| `Terminal.Terminal.WriteRunes` | pkg/terminal/treminal.go:610-621 | row by row up to the right edge; it ends because a cursor inside the width leaves room |
| `Terminal.Terminal.ReplaceLine` | pkg/terminal/treminal.go:320-331 | line and position replaced, a longer old line blanked out |
| `Terminal.Terminal.EraseNPreviousChars` | pkg/terminal/treminal.go:356-377 | the array, closed by an overlapping copy, is the line without up to n runes before the cursor |
| `Terminal.Terminal.CountToLeftWord` | pkg/terminal/treminal.go:381-402 | the count specified by EditLaws.WordLeftMeaning |
| `Terminal.Terminal.CountToRightWord` | pkg/terminal/treminal.go:406-421 | the count specified by EditLaws.WordRightMeaning |
| `Terminal.Terminal.Grow` | pkg/terminal/treminal.go:595-599 | a larger array with the same line |
| `Terminal.Terminal.AddKeyToLine` | pkg/terminal/treminal.go:594-608 | the array, grown if full and opened by an overlapping copy, is the line with the key at the cursor |
| `Terminal.Terminal.CopyDown` | pkg/terminal/treminal.go:367 | copy towards the front of overlapping ranges |
| `Terminal.Terminal.CopyUp` | pkg/terminal/treminal.go:601 | copy towards the end of overlapping ranges |
| `Terminal.Terminal.KeyUp` | pkg/terminal/treminal.go:490-500 | one entry back in the history, the pending line saved first |
| `Terminal.Terminal.KeyDown` | pkg/terminal/treminal.go:501-516 | one entry forward, down to the pending line |
| `Terminal.Terminal.FinishLine` | pkg/terminal/treminal.go:517-535 | cursor to the end, a new row, line and cursor reset |
| `Terminal.Terminal.KeyClearScreen` | pkg/terminal/treminal.go:558-564 | screen cleared, prompt and line drawn again |
| `Terminal.Terminal.KeyDefault` | pkg/terminal/treminal.go:565-587 | completion first, then insertion of a printable key in a line not full |
| `Terminal.Terminal.PressKey` | pkg/terminal/treminal.go:446-590 | handleKey: every branch equals the value-level editor, and the line returned is the same |
| `Terminal.Terminal.WriteWithCRLF` | pkg/terminal/treminal.go:624-650 | n bytes of the buffer went out, a carriage return before every line feed; all of them without an error, and with one at most a piece of an uncounted line feed more |
| `Terminal.CrlfRoundTrip` | pkg/terminal/treminal.go:624-650 | every line feed gets its carriage return, and taking those away gives the bytes back |
| `Terminal.Terminal.Write` | pkg/terminal/treminal.go:652-695 | without an error the bytes that go out and the redrawn editor state, exactly; with one, which of its steps the editor is left in and what was delivered |
| `Terminal.Terminal.RepaintLine` | pkg/terminal/treminal.go:878-897 | old rows blanked from the first one down, prompt and line drawn again |
| `Terminal.Terminal.SetSize` | pkg/terminal/treminal.go:905-956 | each branch: same width, empty terminal, narrower, wider; what is drawn again is sent, the error reported |
| `Terminal.Terminal.TakeKey` | pkg/terminal/treminal.go:810-832 | one key of the loop: end of input, paste brackets, or handleKey |
| `Terminal.Terminal.DrainKeys` | pkg/terminal/treminal.go:802-833 | the inner loop over the keys at hand |
| `Terminal.Terminal.ReadLine` | pkg/terminal/treminal.go:790-868 | readLine on a script of reads, with buffer, history and output (LineReader.LineIsRemembered says what the history holds); except at end of input everything queued has been sent, whole if no write failed |
| `History.StRingBuffer.Add` | pkg/terminal/treminal.go:994-1006 | the ring of 100 slots represents everything added, the new entry last |
| `History.StRingBuffer.NthPreviousEntry` | pkg/terminal/treminal.go:1008-1021 | entry n is found exactly when n < min(additions, 100), and is the n-th newest of everything ever added |
| `Rechunker.Rechunker.Next` | pkg/proxy/switch.go:117-141 | the chunk sent and the new buffer, as Rechunker.BufferedChunkIsWhole and Rechunker.HeldBack describe them; together they are the old buffer and the read, and at most three bytes stay |
| `Table.WrapperTable.MeasureData` | pkg/common/table.go:82-93 | the widest value of every column that has one |
| `Table.WrapperTable.NaturalWidths` | pkg/common/table.go:98-109 | fixed size, else clamped maximum width of the data |
| `Table.WrapperTable.ChangeableColumns` | pkg/common/table.go:135-151 | exactly the adjustable columns, each once, in any order |
| `Table.WrapperTable.OneRound` | pkg/common/table.go:155-161 | every changeable column moves by one unless the remainder runs out |
| `Table.WrapperTable.ConvertDataToSlice` | pkg/common/table.go:165-192 | every cell of every row: a value that fits its column is shown whole, a missing one is empty, one too long is cut by the truncation policy, within the column for the two policies that keep it |
| `Table.GetValidString` | pkg/common/table.go:194-213 | the part specified by Table.ValidPartLongest, empty for a position out of range |
| `Room.Room.OnSubscribe` | pkg/exchange/room_message.go:130-151 | the connection joins and is handed notice, replay and users |
| `Room.Room.OnUnsubscribe` | pkg/exchange/room_message.go:152-154 | the connection leaves, nothing else changes |
| `Room.Room.OnTick` | pkg/exchange/room_message.go:118-122 | the room ends exactly when nobody is connected |
| `Room.Room.OnBroadcast` | pkg/exchange/room_message.go:155-180 | ring, users, ZMODEM flag and every connection's deliveries after one message |
| `Room.Room.Remember` | pkg/exchange/room_message.go:161-163 | the ring without its oldest message, if full, and with the new one |
| `Room.Room.Replay` | pkg/exchange/room_message.go:138-145 | the ring's messages, oldest first, are written to the connection |
| `Room.Room.BroadcastMessage` | pkg/exchange/room_message.go:213-234 | every subscribed connection is handed the message once, in whatever order they are served |
| `Pager.UserSelectHandler.UpdatePageInfo` | pkg/handler/page_info.go:17-47 | the page counts, for page sizes of zero and below too |
| `Pager.UserSelectHandler.UpdateRemotePageData` | pkg/handler/select_handler.go:148-177 | the rows shown, offset, page size and flags, for every page size the configuration can give |
| `Pager.UserSelectHandler.Search` | pkg/handler/select_handler.go:286-291 | shows the first page of the new search |
| `Pager.UserSelectHandler.MoveNextPage` | pkg/handler/select_handler.go:58-65 | shows the page behind the one shown, if there is one |
| `Pager.UserSelectHandler.MovePrePage` | pkg/handler/interactive_handler.go:230-241 | shows the page two sizes back from the offset, if there is one, but not before the first |
| `Completion.FilterPrefix` | pkg/utils/strings.go:16-25 | the matching strings in order |
| `Completion.LongestCommonPrefix` | pkg/utils/strings.go:27-61 | the unique longest common prefix, empty for no strings |

## Left out

- ScreenRefinement: one cell per rune from U+0020 on, so wide and combining characters and the C1 controls are not modelled, and a paste that inserts control characters, which the code takes as they are, is covered by the cursor invariant only.
- CursorAlwaysOk: assumes echo on and no escape character in prompt, history or completions, as visualLength does not count escape sequences.
- WriteRedraws: speaks of a screen with nothing below the cursor, because the code does not clear the rows below; `Painting.ClearScreenPaints` shows that Ctrl-L repairs any display.
- WiderPaints, NarrowerPaints: terminals differ in what a resize does to the text they show; these take those the code was written for, that keep rows or wrap each into two.
- PasteIndicator: starts from an empty line; after a read error in the middle of a line the runes typed before the error belong to no call.
- TypedLineIsRead: for a terminal whose callback completes nothing.
- ChunkingIndependence: a read error ends the script of reads; end of input in the middle of an escape sequence is that error.
- BytesToScreen: speaks of the bytes queued; `Terminal.Terminal.ReadLine` says that they are the bytes sent if no write failed.
- AnswerableExactly: says that an answer stays possible, not that the other nodes give one or that it arrives before the timeout.
- EachCallerItsOwn: the node that answers a join copies its request id and room id, as the code of every node does; leave events, which only one loop sends itself, are not modelled.
- OnlyFromTheOtherSide: publish/subscribe is taken to be reliable and in order per channel, and a session to live on one node.
- ViewerHearsOwner: the viewer has a fresh connection id, as generated UUIDs are; JSON encoding of relayed messages is taken to be faithful.
- CompletionInLine: the callback is the completion function itself; what it prints to the terminal while the lock is released is not modelled.
- EveryPageOk: the page size is fixed and positive and the store does not change between requests; page size "all", which the repository layer turns into ten rows, is covered by `Pager.UserSelectHandler.UpdateRemotePageData` only.
- ReplayThenLive: the list of online users is handed over as a map, not as JSON, and connection ids are fresh, as generated UUIDs are.
- Reading passwords, ReadLines, changing the prompt while it is displayed and the bracketed-paste switch of the terminal.
- In readLine the bytes left at end of input stay where they are in the buffer; the model copies them to its start.
- Bridge shutdown: the deferred send may have no receiver, so for what follows its leaving only safety is proved; window changes, idle and session timers appear as notices without content.
- The rewriting of user input before it reaches the room, which slices at index -1 when a read has no carriage return.
- Closing the connections of a room that is told to exit, and the time between its ticks.
- Exactness of remote subscriber counts, one proxy per room and node, idle times of proxies, and removal of relay connections, on whose channel nothing is sent.
- Setting up and rendering the table; widths of columns that are in FieldsSize but not displayed are modelled as the code computes them.
- Sorting the page shown, retrieval from local data and the search over struct fields, Pretty, the session map and user names.
- SSH, HTTP, MySQL, Kubernetes and Redis clients, configuration, logging and JSON encoding: foreign calls, taken as parameters or channels.
