# Verified models of superzent

This project models the parts of the repository where most state, protocol or arithmetic meets, and
proves what they promise. `dafny verify dfyconfig.toml` checks all of it.

**The agent thread** (`TextStream`, `Messages`, `ToolCalls`, `TerminalRegistry`, `AgentThread`,
`ThreadStreaming`, `ThreadText`, `ThreadCalls`, `ThreadRewind`, `ThreadTerminals`, `MessageEffects`,
`CallEffects`, `TurnEffects`, `TurnProtocol`, `TurnRuns`, `TurnMessages`, `AcpThread`). A thread folds
protocol events into a list of entries while turns start, are cancelled, overlap and finish.
`AgentThread` gives every atomic update as a function from one state to the next; the class in
`AcpThread` carries the same updates out in place, loops included, and each method's contract
equates its fields with that function. The `Effects` modules say what each update does without
naming the update. `TurnProtocol` adds the tasks around the thread: a turn's send task owns and
awaits the one it cancels, and a response is handled some time after it was given. The theorems are
about all runs. Smooth streaming refines immediate appending. Permission requests are each held
once, answered once, or dropped. Tool call ids are unique. Turns neither overlap nor change order as
long as nothing is sent while an explicitly held cancel is unfinished; after a send that breaks
this, two bodies can always come to run at once. Terminal output is conserved, and rewinding is
exact.

**The consent string codec** (`BitStrings`, `Base64Url`, `ConsentVector`, `Restrictions`, `TcString`,
`TcStringLimits`, `WireLayout`, `TcLayout`).
Version 2 of the IAB Tech Lab Transparency and Consent String, from bits and the alphabet of section 5
of RFC 4648 up to whole strings of several segments. The two `Layout` modules give the position of
every field, without the encoders. All of the source is on the first line of one
file; its classes are found there under the names `L` (integers), `pe` (letters), `ne` and `ce`
(vectors), `Ve` and `he` (restrictions), `ze` (segments), `bt` (strings), `H`, `S`, `xe`, `Fe`, `Ne`.

**Smaller algorithms**: excerpt merging (`ExcerptRanges`), terminal output truncation (`Utf8`,
`TerminalOutput`), the protocol log's method names (`MessageLog`), the upgrade of saved threads
(`LegacyThread`), and the duplicate report with its parser (`PyText`, `Splitting`, `StableSort`,
`DuplicateReport`, `ReportOrder`, `DuplicateRoundTrip`).

Some promises hold only under a condition, which is then stated as an equivalence:

- Content updates with items of unknown kind misplace what follows (`ToolCalls.ReconcileReplacesIff`,
  with the smallest case in `ToolCalls.UnknownItemMisplaces`).
- A held cancel that is not awaited lets two bodies run at once (`TurnRuns.SendingKeepsOrderIff`,
  `TurnRuns.HeldBodyIsOverlapped`, `TurnRuns.HeldBodyIsReachable`).
- A late completion can still cancel calls and truncate entries (`TurnRuns.LateCompletionActsIff`,
  with a run in `TurnRuns.LateRefusalCutsNewerMessage`).
- Tool results can be lost in an upgrade, and an upgrade need not be idempotent
  (`LegacyThread.ResultsSurviveIffRoom`, `LegacyThread.SecondUpgradeChangesNothingIff`,
  with cases in `LegacyThread.ResultIsLost` and `LegacyThread.SecondUpgradeMovesOn`).
- The encoder writes a CMP id of 0 or 1, which the decoder refuses (`TcString.TcStringRoundTrip`,
  with a case in `TcStringLimits.UnsetCmpIdIsRefused`).
- The vendor encoder can take the longer of its two forms (`WireLayout.RangesAreChosenIff`, with a
  case in `WireLayout.LongerFormIsChosen`).
- Area names that are not trimmed change in the report round trip
  (`DuplicateRoundTrip.AreasSurviveIffTrimmed`, with a case in `DuplicateRoundTrip.PaddedAreaChanges`).
- The comment above `upsert_tool_call_inner` says it fails for unknown ids; the code inserts a new
  entry, and so does the model.

## Model

| member | source | states |
|---|---|---|
| TextStream.RateIsExact | crates/acp_thread/src/acp_thread.rs:998-1004 | the bytes revealed per tick are 16/200 of the pending length rounded up, so at least one while anything is pending |
| TextStream.TickRevealsInPlace | crates/acp_thread/src/acp_thread.rs:1565-1590 | a tick moves text from the buffer to its Markdown without losing, repeating or reordering any: flushing before or after it gives the same texts |
| TextStream.BufferingIsAppending | crates/acp_thread/src/acp_thread.rs:1508-1539 | buffering text and then flushing is appending it, whether or not the buffer streamed elsewhere before |
| TextStream.StreamConserves | crates/acp_thread/src/acp_thread.rs:1508-1593 | over every run of arrivals, direct appends, ticks and flushes, what a Markdown shows followed by what is pending for it is everything addressed to it, in arrival order |
| TextStream.NextKeepsPace | crates/acp_thread/src/acp_thread.rs:1515-1536 | 25 times the rate stays at least twice the pending length through every event |
| TextStream.NextKeepsText | crates/acp_thread/src/acp_thread.rs:1577-1586 | every cut falls between characters: shown and pending text stay well-formed UTF-8 |
| TextStream.CutIsClose | crates/acp_thread/src/acp_thread.rs:1577-1580 | one tick reveals at least the rate or everything, and at most three bytes more than the rate |
| TextStream.DrainsInThirteenTicks | crates/acp_thread/src/acp_thread.rs:998-1004 | thirteen ticks without a new arrival show all pending text and change nothing else |
| TextStream.TwelveTicksCanFallShort | crates/acp_thread/src/acp_thread.rs:998-1004 | thirteen is the least such number: 25 bytes that arrive for an empty Markdown while nothing is pending are not all shown after twelve ticks |
| Messages.CombineChunks | crates/acp_thread/src/acp_thread.rs:564-575 | the loop builds the same block as folding the chunks one by one |
| Messages.AppendCommutes | crates/acp_thread/src/acp_thread.rs:577-620 | adding a chunk to a block that nothing is pending for commutes with flushing the buffer |
| ThreadStreaming.AssistantChunkCommutes | crates/acp_thread/src/acp_thread.rs:1406-1470 | sending text through the buffer and flushing gives the entries and texts that adding it to the message at once gives |
| ThreadStreaming.StepCommutes | crates/acp_thread/src/acp_thread.rs:1355-1602 | one update of the streaming thread, flushed, is that update of a thread that appends everything at once |
| ThreadStreaming.StreamingRefinesAppending | crates/acp_thread/src/acp_thread.rs:1355-1602 | in every run of updates the streaming thread, flushed, equals the thread that never buffers: entries, texts, plan, calls, channels and terminals alike |
| ThreadStreaming.ShownAndPending | crates/acp_thread/src/acp_thread.rs:1508-1553 | in every run each Markdown shows, together with what is pending for it, what it would show without streaming |
| ThreadStreaming.TextArrivesInOrder | crates/acp_thread/src/acp_thread.rs:1355-1602 | in every run of the thread, for every Markdown, made before the run or in it: what it shows followed by what is pending for it grows by exactly the text it is made with and the text of the chunks addressed to it, in order, and changes in no other way |
| ThreadStreaming.NoPendingTextSurvives | crates/acp_thread/src/acp_thread.rs:1598-1602 | nothing is pending after a new entry, a processed response, a cancel of a running turn, a user chunk or the start of a rewind |
| ThreadText.StepKeepsText | crates/acp_thread/src/acp_thread.rs:1355-1602 | every update keeps all Markdowns and the pending text well-formed UTF-8, if the text it brings is |
| ThreadText.TextStaysValid | crates/acp_thread/src/acp_thread.rs:1355-1602 | so in every run of the thread, although streaming cuts text up |
| ThreadStreaming.PaceIsKept | crates/acp_thread/src/acp_thread.rs:1508-1539 | at any point of a run the rate fits what is pending, so that thirteen ticks in a row would show it |
| ThreadStreaming.TextIsShownInTime | crates/acp_thread/src/acp_thread.rs:1508-1593 | in every run of the thread, once thirteen ticks have come since the last arrival of assistant text, whatever other updates come in between, nothing is pending |
| MessageEffects.AssistantChunkEffects | crates/acp_thread/src/acp_thread.rs:1406-1470 | a chunk from the assistant joins a last message of its indent or starts one; all earlier entries and all parts stay but the block it joins, or one part of its kind is added; the Markdown of that block, and no other, receives the text |
| MessageEffects.UserChunkEffects | crates/acp_thread/src/acp_thread.rs:1358-1394 | a chunk from the user joins a last message of its indent, which takes the message id if one comes with it, or starts one; all else stays |
| MessageEffects.MessagesKeepTheirParts | crates/acp_thread/src/acp_thread.rs:1355-2316 | in every run an assistant message that is not cut off keeps all its parts, and has exactly one more for each chunk that reaches it and is not of the kind of its last part then |
| ToolCalls.CaptionIsOneLine | crates/acp_thread/src/acp_thread.rs:247-253 | except for commands, a call is captioned by the first line of its title, marked when there is more |
| ToolCalls.ConvertItems | crates/acp_thread/src/acp_thread.rs:254-265 | the loop converts the items in order, drops unknown ones and fails at the first terminal that is not registered |
| ToolCalls.ReconcileContent | crates/acp_thread/src/acp_thread.rs:345-371 | the two loops and the truncation compute the item-by-item update, also when an item fails half way |
| ToolCalls.UpdateRecord | crates/acp_thread/src/acp_thread.rs:294-393 | fields are assigned in order, and what was assigned before an error stays assigned |
| ToolCalls.ReconcileReplacesIff | crates/acp_thread/src/acp_thread.rs:345-371 | updating content in place equals replacing it, for every prior content of a given length, exactly when no unknown item within that length has a known one after it; diffs compare by their two texts |
| ToolCalls.UnknownItemMisplaces | crates/acp_thread/src/acp_thread.rs:345-371 | content [x] updated with an unknown item and then a text keeps x and loses the text |
| ToolCalls.FailsIffTerminalMissing | crates/acp_thread/src/acp_thread.rs:713-745 | a content update fails exactly when it names a terminal that is not registered, like the conversion of a new call |
| ToolCalls.UpdatedContent | crates/acp_thread/src/acp_thread.rs:345-391 | after an update with new content the record shows that content, or the output if that content is empty |
| CallEffects.ConversionShows | crates/acp_thread/src/acp_thread.rs:713-745 | the content made from items is one entry for each known item, in order, that shows its diff, terminal, picture, link or text; it is made exactly when all terminals are registered |
| CallEffects.ReportEffects | crates/acp_thread/src/acp_thread.rs:1727-1785 | a reported call that is accepted is the one entry with its id, with the status reported and the fields given; one that fails adds no entry |
| CallEffects.UpdateEffects | crates/acp_thread/src/acp_thread.rs:1645-1714 | an update sets fields of the call with its id, or replaces its content by a diff or a terminal; without such a call it leaves a failed one |
| CallEffects.RequestEffects | crates/acp_thread/src/acp_thread.rs:1910-1942 | a permission request opens one channel: if it is accepted the call with its id waits on that channel, which is open, and a request the call had before is dropped; if not the channel is dropped; nothing becomes of any other request |
| CallEffects.AnswerEffects | crates/acp_thread/src/acp_thread.rs:1944-1974 | an answer makes its call in progress or rejected, gives the option to the request it was waiting on, and changes no other call or request |
| CallEffects.RequestIsAnswered | crates/acp_thread/src/acp_thread.rs:1910-1974 | an answer right after an accepted request answers it |
| ThreadCalls.IndexOfIsLast | crates/acp_thread/src/acp_thread.rs:1787-1801 | the search from the back finds the last entry with the id, or none if there is none |
| ThreadCalls.LookupIsExact | crates/acp_thread/src/acp_thread.rs:1787-1801 | with unique ids, an entry is found exactly when it is the call with that id |
| ThreadCalls.UpsertKeepsSound | crates/acp_thread/src/acp_thread.rs:1727-1785 | an upsert, with or without a permission channel in its status, and whether or not it fails, keeps ids unique and every channel accounted for |
| ThreadCalls.UpdateKeepsSound | crates/acp_thread/src/acp_thread.rs:1645-1714 | so does an update, including one to an unknown id |
| ThreadCalls.AuthorizeKeepsSound | crates/acp_thread/src/acp_thread.rs:1944-1974 | so does an answer |
| ThreadCalls.TruncateKeepsSound | crates/acp_thread/src/acp_thread.rs:2181-2184 | dropping entries drops exactly the senders they held |
| ThreadCalls.MarkKeepsSound | crates/acp_thread/src/acp_thread.rs:2224-2239 | cancelling unfinished calls drops the senders of all waiting ones |
| ThreadCalls.StepKeepsSound | crates/acp_thread/src/acp_thread.rs:1355-2316 | every update keeps tool call ids unique, and a channel open exactly while one entry holds it |
| ThreadCalls.StepSettles | crates/acp_thread/src/acp_thread.rs:1910-1974 | channels change only by settling, and to an answer only by an authorization for the entry that holds them |
| ThreadCalls.AnswerArrives | crates/acp_thread/src/acp_thread.rs:1944-1974 | an answer for a waiting call reaches its open request |
| ThreadCalls.RequestsAreAccountedFor | crates/acp_thread/src/acp_thread.rs:1910-1974 | in every run: ids are unique; each request is open and held by exactly one entry, or answered with an option given while it waited, or dropped; settled requests never change again |
| ThreadCalls.NewThreadIsSound | crates/acp_thread/src/acp_thread.rs:1120-1167 | a new thread has unique ids and no open request |
| ThreadCalls.UpdatesTouchOneEntry | crates/acp_thread/src/acp_thread.rs:1645-1785 | an update, upsert, request or answer changes at most the one entry with its id, or adds that entry |
| ThreadRewind.RewindIsExact | crates/acp_thread/src/acp_thread.rs:2286-2307 | rewinding leaves exactly the entries before the first message with the id, and exactly the terminals that no removed entry shows, with their output |
| ThreadRewind.RewindsCompose | crates/acp_thread/src/acp_thread.rs:2286-2307 | rewinding to one message and then another leaves the same thread as rewinding to whichever comes first |
| TerminalRegistry.WriteAll | crates/acp_thread/src/acp_thread.rs:2753-2760 | waiting output is written to a new terminal in the order it came |
| TerminalRegistry.OutputIsConserved | crates/acp_thread/src/acp_thread.rs:2731-2807 | over every history, no id is both registered and waited for, and written plus waiting output is exactly what is due to the id, wherever its creation falls |
| TerminalRegistry.OneCreationKeepsAll | crates/acp_thread/src/acp_thread.rs:2731-2807 | for an id created at most once and not yet removed, that is all its output in order |
| TerminalRegistry.ExitsAreKept | crates/acp_thread/src/acp_thread.rs:2795-2806 | an exit that comes before its terminal waits for it, exactly until the terminal is created |
| ThreadTerminals.RunChanges | crates/acp_thread/src/acp_thread.rs:2665-2678 | in every run of the thread its terminals follow from terminal events, releases and rewinds alone |
| ThreadTerminals.TerminalOutputIsConserved | crates/acp_thread/src/acp_thread.rs:2731-2807 | conservation of output in every run of a thread, rewinds included |
| TurnProtocol.AbandonEnds | crates/acp_thread/src/acp_thread.rs:2211-2222 | dropping a cancel task ends the whole chain of turns below it and no other |
| TurnProtocol.NewTurnKeepsInv | crates/acp_thread/src/acp_thread.rs:2093-2111 | a new turn waits for the one it cancels, which keeps all turns in one chain |
| TurnProtocol.StartKeepsInv | crates/acp_thread/src/acp_thread.rs:2106-2111 | a body starts only when nothing older is live, and its message goes after all others |
| TurnProtocol.HandleKeepsInv | crates/acp_thread/src/acp_thread.rs:2113-2207 | completions, of any age and in any order, keep the order of turns |
| TurnProtocol.DropKeepsInv | crates/acp_thread/src/acp_thread.rs:2211-2222 | so does dropping a cancel task that is held |
| TurnProtocol.NextKeepsInv | crates/acp_thread/src/acp_thread.rs:2021-2222 | every event of the protocol keeps the order of turns, if nothing is sent while a held cancel is unfinished |
| TurnRuns.TurnsAreExclusiveAndOrdered | crates/acp_thread/src/acp_thread.rs:2021-2222 | in every such run: one body at a time, in turn order; the message of every started send is in the thread, in send order and with the chunks sent, unless it was cut off since; the running turn is the newest; and no turn is left over when none is running or held |
| TurnRuns.OlderCompletionKeepsRunning | crates/acp_thread/src/acp_thread.rs:2130-2140 | the completion of an older turn never clears the running one |
| TurnRuns.RunningChanges | crates/acp_thread/src/acp_thread.rs:2093-2140 | only sending or retrying makes a turn run, always the newest; only a cancel or that turn's own completion ends it |
| TurnRuns.RunningIsAlwaysNewest | crates/acp_thread/src/acp_thread.rs:2093-2140 | in every run, however turns overlap, the running turn is the newest |
| TurnRuns.OldestCanMove | crates/acp_thread/src/acp_thread.rs:2106-2111 | the oldest unfinished turn can always start or end: turns never wait in a circle |
| TurnRuns.AllCanFinish | crates/acp_thread/src/acp_thread.rs:2106-2111 | from every state such runs reach, starting and ending bodies, at most two events for each unfinished turn, ends all turns |
| TurnRuns.CancelledTurnStillStarts | crates/acp_thread/src/acp_thread.rs:2106-2111 | a turn cancelled before its body starts can still start it, because its task is awaited |
| TurnRuns.SendingKeepsOrderIff | crates/acp_thread/src/acp_thread.rs:2093-2111 | after sending or retrying, some continuation runs two bodies at once exactly when a held cancel is unfinished, whether the body of its turn has started or not; otherwise the order of turns is kept |
| TurnRuns.HeldBodyIsOverlapped | crates/acp_thread/src/acp_thread.rs:2093-2111 | for any live held turn, at most two starts bring the new body and an older one, its own or one it waits for, to run at once; one start if its body runs already |
| TurnRuns.HeldBodyIsReachable | crates/acp_thread/src/acp_thread.rs:2211-2222 | cancelling a running turn and keeping the cancel task reaches such a state |
| TurnRuns.OnlyTruncationRemoves | crates/acp_thread/src/acp_thread.rs:2159-2192 | no event but a rewind and a handled refusal cuts sent messages off |
| TurnRuns.LateCompletionActsIff | crates/acp_thread/src/acp_thread.rs:2131-2192 | a late completion changes the entries exactly when it reports a cancellation and some call is unfinished, or a refusal and no completed call with output follows the last user message; running turn, plan and terminals it leaves alone |
| TurnRuns.LateRefusalCutsNewerMessage | crates/acp_thread/src/acp_thread.rs:2131-2192 | a run reaches such a completion: a first turn is refused, a second starts, and then handling the refusal cuts off the message of the second |
| TurnRuns.NextRunsOps | crates/acp_thread/src/acp_thread.rs:2021-2222 | every event of the protocol is a run of the thread updates above |
| TurnRuns.SystemStaysSound | crates/acp_thread/src/acp_thread.rs:2021-2222 | ids and permission channels stay accounted for in every run, however turns overlap |
| TurnRuns.NextStaysLive | crates/acp_thread/src/acp_thread.rs:2021-2222 | after any event all entries and all messages still to be sent refer to existing Markdowns |
| TurnEffects.CompletionEffects | crates/acp_thread/src/acp_thread.rs:2113-2207 | the completion of any turn, running or late: a refusal leaves the entries before the last user message, or all if output follows that or there is none; a cancellation cancels exactly the unfinished calls; no other response touches an entry; the error flag is raised exactly for errors, a full context and refusals |
| TurnEffects.CancellingEffects | crates/acp_thread/src/acp_thread.rs:2209-2239 | cancelling a running turn ends it, shows all pending text and cancels exactly the unfinished calls |
| TurnEffects.StartingEffects | crates/acp_thread/src/acp_thread.rs:2093-2111 | a new turn runs under the next number with the error flag cleared and exactly the completed plan entries gone, and the turn that ran is cancelled |
| TurnMessages.TaskMoves | crates/acp_thread/src/acp_thread.rs:2093-2222 | a turn keeps its work and what it waits for, and its stage moves only by its own start and end or a dropped cancel |
| TurnMessages.SentTextIsShown | crates/acp_thread/src/acp_thread.rs:2021-2033 | a message of texts becomes one Markdown that shows all of them in order, whatever is being streamed |
| TurnMessages.SentMessageArrives | crates/acp_thread/src/acp_thread.rs:2034-2060 | whatever happens between a send and the start of its body, the body puts exactly the message sent as the last entry |
| TurnMessages.ResponseIsHandled | crates/acp_thread/src/acp_thread.rs:2106-2207 | whatever happens between a response and its handling, it is handled as it was given |
| AcpThread.AcpThread.FlushStreamingText | crates/acp_thread/src/acp_thread.rs:1542-1553 | pending text is appended to its Markdown and the buffer is emptied |
| AcpThread.AcpThread.BufferStreamingText | crates/acp_thread/src/acp_thread.rs:1508-1539 | text joins the buffer of its Markdown, after flushing one for another Markdown |
| AcpThread.AcpThread.Reveal | crates/acp_thread/src/acp_thread.rs:1558-1596 | one timer tick, which goes on for as long as there is a buffer |
| AcpThread.AcpThread.CeilCut | crates/acp_thread/src/acp_thread.rs:1579-1582 | the search upwards for a character boundary |
| AcpThread.AcpThread.AddEntry | crates/acp_thread/src/acp_thread.rs:1598-1602 | the buffer is flushed before an entry is pushed |
| AcpThread.AcpThread.AppendToBlock | crates/acp_thread/src/acp_thread.rs:577-620 | how a chunk is added to a block, by kind of block and chunk |
| AcpThread.AcpThread.PushUserContentBlock | crates/acp_thread/src/acp_thread.rs:1355-1402 | a chunk joins the last user message of the same indent or starts one |
| AcpThread.AcpThread.PushAssistantContentBlock | crates/acp_thread/src/acp_thread.rs:1406-1470 | text for an existing Markdown is streamed, all else is added at once |
| AcpThread.AcpThread.IndexForToolCall | crates/acp_thread/src/acp_thread.rs:1787-1801 | the loop from the back finds the last call with the id |
| AcpThread.AcpThread.UpdateToolCall | crates/acp_thread/src/acp_thread.rs:1645-1714 | an update changes the call it names, or leaves a failed call for an unknown id |
| AcpThread.AcpThread.UpsertToolCallInner | crates/acp_thread/src/acp_thread.rs:1727-1785 | an upsert updates or inserts; it fails exactly when the update, or the conversion of the new call, does, and then drops the status it was given |
| AcpThread.AcpThread.RequestToolCallAuthorization | crates/acp_thread/src/acp_thread.rs:1910-1942 | a request opens a channel and stores its sender in the call, or fails as the upsert does |
| AcpThread.AcpThread.AuthorizeToolCall | crates/acp_thread/src/acp_thread.rs:1944-1974 | an answer goes to the request of its call and sets the status |
| AcpThread.AcpThread.UpdatePlan | crates/acp_thread/src/acp_thread.rs:1980-2003 | whatever the plan was, and however long, it is the requested one afterwards, though the loops reuse its entries |
| AcpThread.AcpThread.ClearCompletedPlanEntries | crates/acp_thread/src/acp_thread.rs:2005-2011 | exactly the completed entries go |
| AcpThread.AcpThread.MarkPendingToolsAsCanceled | crates/acp_thread/src/acp_thread.rs:2224-2239 | the loop cancels unfinished calls and drops the senders they hold |
| AcpThread.AcpThread.Truncate | crates/acp_thread/src/acp_thread.rs:2181-2184 | entries from a position on are removed with the senders they hold |
| AcpThread.AcpThread.CancelTurn | crates/acp_thread/src/acp_thread.rs:2211-2222 | with a turn running: no turn, flushed text, cancelled calls; otherwise nothing |
| AcpThread.AcpThread.RunTurn | crates/acp_thread/src/acp_thread.rs:2021-2105 | the synchronous part of sending and retrying |
| AcpThread.AcpThread.LastUserMessageIndex | crates/acp_thread/src/acp_thread.rs:2361-2373 | the loop finds the last user message |
| AcpThread.AcpThread.CompleteTurn | crates/acp_thread/src/acp_thread.rs:2131-2207 | the completion handler, by response and stop reason |
| AcpThread.AcpThread.HandleRefusal | crates/acp_thread/src/acp_thread.rs:2159-2192 | a refusal truncates before the last user message unless a completed call with output follows it |
| AcpThread.AcpThread.UserMessageIndex | crates/acp_thread/src/acp_thread.rs:2375-2387 | the loop finds the first message with the id |
| AcpThread.AcpThread.TerminalsFrom | crates/acp_thread/src/acp_thread.rs:2288-2293 | the terminals that removed entries show |
| AcpThread.AcpThread.FinishRewinding | crates/acp_thread/src/acp_thread.rs:2286-2307 | the rewind after the agent has truncated |
| AcpThread.AcpThread.OnTerminalProviderEvent | crates/acp_thread/src/acp_thread.rs:2731-2807 | terminal events, also those that come before their terminal |
| AcpThread.AcpThread.ReleaseTerminalById | crates/acp_thread/src/acp_thread.rs:2665-2678 | a registered terminal is released; releasing another is an error |
| Utf8.CutAtBoundary | crates/acp_thread/src/terminal.rs:152-160 | cutting well-formed text where the one-byte boundary test passes leaves two well-formed halves |
| Utf8.BoundaryIsNear | crates/acp_thread/src/terminal.rs:152-156 | a boundary is at most three bytes away, downwards and upwards |
| TerminalOutput.TruncationIsCleanPrefix | crates/acp_thread/src/terminal.rs:145-164 | output within the limit stays whole; output over the limit is cut to a well-formed prefix within it, ending before the last line break below the last boundary, or at that boundary |
| TerminalOutput.Terminal.TruncatedOutput | crates/acp_thread/src/terminal.rs:145-164 | the backward loop and the cut compute that prefix and the full length |
| TerminalOutput.Terminal.Finish | crates/acp_thread/src/terminal.rs:70-84 | what is recorded at the end is the truncated last screen with its full length |
| TerminalOutput.Terminal.CurrentOutput | crates/acp_thread/src/terminal.rs:125-143 | the truncated flag is true exactly when bytes were dropped: of what the terminal shows while the command runs, of what it showed last once it has ended |
| ExcerptRanges.ExcerptsAreSeparatedAndExact | crates/acp_thread/src/diff.rs:351-387 | merged ranges come in order with a strict gap between neighbours and cover exactly what the inputs cover |
| ExcerptRanges.ExcerptsIdempotent | crates/acp_thread/src/diff.rs:351-387 | merging merged ranges changes nothing |
| ExcerptRanges.RevealOrderIsInvisible | crates/acp_thread/src/diff.rs:364-369 | reordering the inputs cannot change the result |
| ExcerptRanges.SeparatedFormIsUnique | crates/acp_thread/src/diff.rs:371-387 | a set of positions has only one separated list of non-empty ranges |
| ExcerptRanges.ExcerptsAreCanonical | crates/acp_thread/src/diff.rs:351-387 | two lists of non-empty ranges that cover the same positions merge to the same list |
| ExcerptRanges.ExcerptRanges | crates/acp_thread/src/diff.rs:351-387 | the sort, by any unstable algorithm, and the sweep compute the merge |
| ExcerptRanges.MergeSorted | crates/acp_thread/src/diff.rs:371-387 | the nested loops compute the sweep |
| MessageLog.UnansweredIsLatest | crates/acp_tools/src/acp_tools.rs:158-200 | the scan names a response after the last message about its id, if that is a request |
| MessageLog.WatchedConnection.PushStreamMessage | crates/acp_tools/src/acp_tools.rs:158-230 | both maps keep agreeing with a scan of the whole history; a response is named after the last message about its id, if that is a request in the other direction, and is unrecognized otherwise; every line has its own kind, id and direction |
| MessageLog.LinesRead | crates/acp_tools/src/acp_tools.rs:158-230 | every line on view reads so, given all messages before it, cleared or not |
| MessageLog.WatchedConnection.ClearMessages | crates/acp_tools/src/acp_tools.rs:260-267 | clearing the list forgets nothing that names are taken from |
| LegacyThread.ResultsSurviveIffRoom | crates/agent/src/legacy_thread.rs:88-112 | tool results survive an upgrade, all and in order, exactly when each carrier follows a message without results |
| LegacyThread.ResultIsLost | crates/agent/src/legacy_thread.rs:88-112 | an answer with a result before a carrier of another one loses its own |
| LegacyThread.OthersStayInOrder | crates/agent/src/legacy_thread.rs:88-112 | apart from results, the upgraded thread is the messages that are kept, unchanged and in order |
| LegacyThread.ResultsAttach | crates/agent/src/legacy_thread.rs:88-112 | where there is room, results end up on the message right before their carrier |
| LegacyThread.SecondUpgradeChangesNothingIff | crates/agent/src/legacy_thread.rs:88-112 | a second upgrade changes nothing exactly when no plain user message after the first precedes a carrier |
| LegacyThread.SecondUpgradeMovesOn | crates/agent/src/legacy_thread.rs:88-112 | after an answer, a question and a carrier, the first upgrade puts the result on the question and a second moves it on to the answer |
| LegacyThread.Upgrade | crates/agent/src/legacy_thread.rs:88-112 | the loop computes the upgraded thread |
| DuplicateReport.GroupByArea | script/github-find-top-duplicated-bugs.py:154-159 | the loops group mentions and totals by area, in the order areas are met |
| DuplicateReport.BuildMarkdownBody | script/github-find-top-duplicated-bugs.py:148-178 | the loops print areas by falling total and issues by falling count |
| DuplicateReport.ParseDuplicateMagnets | script/github-check-new-issue-for-duplicates.py:274-305 | the loop reads headings and issue lines into the dictionary and sorts it |
| StableSort.SortDescSorts | script/github-find-top-duplicated-bugs.py:166-167 | sorting gives the same items in non-increasing order |
| StableSort.SortDescIsStable | script/github-find-top-duplicated-bugs.py:166-167 | items with equal keys keep their order |
| ReportOrder.ReportIsRanked | script/github-find-top-duplicated-bugs.py:148-178 | the report has one section for each area a magnet names, by falling sum of counts, with its magnets by falling count, ties in the order they were given |
| PyText.StripIsExact | script/github-check-new-issue-for-duplicates.py:277 | stripping cuts blanks off both ends, and all of them |
| Splitting.SplitUndoesJoin | script/github-check-new-issue-for-duplicates.py:274 | splitting joined lines gives the lines back |
| DuplicateRoundTrip.IssueLineReads | script/github-check-new-issue-for-duplicates.py:283-288 | a printed issue line parses to the count and number it was printed from |
| DuplicateRoundTrip.DictionaryIsExact | script/github-check-new-issue-for-duplicates.py:270-303 | the dictionary read back holds exactly one entry per visible magnet, with its count and its areas |
| DuplicateRoundTrip.ReportRoundTrip | script/github-check-new-issue-for-duplicates.py:257-306 | parsing a printed report gives exactly one record per magnet that has a non-blank area name, with its number, count and areas, by falling count |
| DuplicateRoundTrip.AreasSurviveIffTrimmed | script/github-check-new-issue-for-duplicates.py:276-278 | a record has the areas of its magnet, apart from the unlabeled marker, exactly when all of them are trimmed and non-blank |
| DuplicateRoundTrip.PaddedAreaChanges | script/github-check-new-issue-for-duplicates.py:276-278 | an area name with a leading blank comes back without it |
| DuplicateRoundTrip.RepositoryHostIsProper | script/github-check-new-issue-for-duplicates.py:268-269 | addresses of the repository meet the condition the line parser needs |
| BitStrings.IntRoundTrip | docs/theme/c15t@2.0.0-rc.3.js:1 | an encoded integer has its width and decodes to itself |
| BitStrings.IntFits | docs/theme/c15t@2.0.0-rc.3.js:1 | encoding fails exactly on numbers the width cannot hold |
| BitStrings.IntDecodeRoundTrip | docs/theme/c15t@2.0.0-rc.3.js:1 | encoding a decoded integer gives its bits back |
| Base64Url.PaddingFillsGroups | docs/theme/c15t@2.0.0-rc.3.js:1 | padding reaches the next whole group of 24 bits and no further |
| Base64Url.Base64RoundTrip | docs/theme/c15t@2.0.0-rc.3.js:1 | decoding gives the bits back, followed only by zeros up to a 24-bit group |
| Base64Url.EncodeBits | docs/theme/c15t@2.0.0-rc.3.js:1 | the loops of the encoder |
| Base64Url.DecodeText | docs/theme/c15t@2.0.0-rc.3.js:1 | the loop of the decoder, failing at a foreign character |
| ConsentVector.FieldRoundTrip | docs/theme/c15t@2.0.0-rc.3.js:1 | a bit field decodes to the ids it was made from |
| ConsentVector.EncodeFixedVector | docs/theme/c15t@2.0.0-rc.3.js:1 | the loop that writes a fixed vector |
| ConsentVector.DecodeFixedVector | docs/theme/c15t@2.0.0-rc.3.js:1 | the loop that reads one, refusing another length |
| ConsentVector.RunsHoldIds | docs/theme/c15t@2.0.0-rc.3.js:1 | the ranges collected so far hold exactly the ids passed, up to the run still open |
| ConsentVector.CostGrows | docs/theme/c15t@2.0.0-rc.3.js:1 | the cost of the ranges only grows, so once the size test fails it stays failed |
| ConsentVector.VendorsRoundTrip | docs/theme/c15t@2.0.0-rc.3.js:1 | a vendor field followed by any bits decodes to the ids encoded and its own length, in range or bit-field form |
| ConsentVector.RangesRead | docs/theme/c15t@2.0.0-rc.3.js:1 | any range list, in whatever order, reads as the ids it covers, and one that covers id 0 is refused |
| WireLayout.VendorsStand | docs/theme/c15t@2.0.0-rc.3.js:1 | a vendor field is the largest id in 16 bits, a bit for the form, and then a bit for each id, or the number of runs in 12 bits and each run as a flag and one or two ids of 16 bits |
| WireLayout.RangesAreChosenIff | docs/theme/c15t@2.0.0-rc.3.js:1 | the range form is taken exactly if an id is above 45 and it is shorter than the bit field plus 16 bits and one for every run of one id |
| WireLayout.LongerFormIsChosen | docs/theme/c15t@2.0.0-rc.3.js:1 | so vendors 2, 4 and 46 take 80 bits where the bit field takes 63 |
| ConsentVector.EncodingFailsIffTooManyRanges | docs/theme/c15t@2.0.0-rc.3.js:1 | for a maximum id below 65536, encoding fails exactly when the range form is chosen and has 4096 ranges or more |
| ConsentVector.EncodeVendorVector | docs/theme/c15t@2.0.0-rc.3.js:1 | the single pass that writes the bit field and gathers ranges while they pay computes the chosen form |
| ConsentVector.BuildRangeEncoding | docs/theme/c15t@2.0.0-rc.3.js:1 | the loop that writes a range list |
| ConsentVector.DecodeVendorVector | docs/theme/c15t@2.0.0-rc.3.js:1 | the decoder with its running offset |
| ConsentVector.Vector.Set | docs/theme/c15t@2.0.0-rc.3.js:1 | a vector keeps its maximum and forgets its bit length when an id is added |
| ConsentVector.Vector.SetMany | docs/theme/c15t@2.0.0-rc.3.js:1 | adding several ids stops at the first that is not positive; exactly those before it are added |
| ConsentVector.Vector.Unset | docs/theme/c15t@2.0.0-rc.3.js:1 | removing an id recomputes the maximum |
| Restrictions.NextListedIsNext | docs/theme/c15t@2.0.0-rc.3.js:1 | the search above a vendor stops at the first id of the vendor list |
| Restrictions.BridgingAddsOnlyUnlisted | docs/theme/c15t@2.0.0-rc.3.js:1 | bridged ranges lose no vendor and add none of the vendor list |
| Restrictions.BridgingAddsNothingIff | docs/theme/c15t@2.0.0-rc.3.js:1 | a restriction comes back unchanged exactly when no gap between its vendors is bridged |
| WireLayout.BridgedRangesBridge | docs/theme/c15t@2.0.0-rc.3.js:1 | the ranges run from vendor to vendor over all vendors and end exactly where the next vendor is not reached: an id of the list is between them, or none stands from that vendor to the last one |
| Restrictions.RestrictionsRoundTrip | docs/theme/c15t@2.0.0-rc.3.js:1 | the restriction field is self-delimiting and carries every restriction that has vendors |
| Restrictions.EntryRangesRead | docs/theme/c15t@2.0.0-rc.3.js:1 | any range list of a restriction reads as the ids it covers, but a backward range or an invalid key is refused |
| WireLayout.RestrictionsStand | docs/theme/c15t@2.0.0-rc.3.js:1 | the field is the number of restrictions in 12 bits and for each its purpose in 6, its kind in 2, the number of ranges in 12 and the ranges |
| Restrictions.CarriedUnchangedIff | docs/theme/c15t@2.0.0-rc.3.js:1 | all restrictions come back as they were exactly when each has vendors and none of their gaps is bridged |
| Restrictions.DecodedRestrictionsAgreeOnListed | docs/theme/c15t@2.0.0-rc.3.js:1 | under every restriction decoding finds a superset of its vendors that agrees with them on the vendor list |
| Restrictions.FindNextListed | docs/theme/c15t@2.0.0-rc.3.js:1 | the loop of that search |
| Restrictions.GetVendors | docs/theme/c15t@2.0.0-rc.3.js:1 | the vendors of a restriction in increasing order |
| Restrictions.EncodeRestrictionVector | docs/theme/c15t@2.0.0-rc.3.js:1 | the nested loops of the encoder |
| Restrictions.DecodeRestrictionVector | docs/theme/c15t@2.0.0-rc.3.js:1 | the nested loops of the decoder |
| TcString.FieldReads | docs/theme/c15t@2.0.0-rc.3.js:1 | every field, wherever it stands and whatever follows, reads back with its own length |
| TcString.UnchangedIffFits | docs/theme/c15t@2.0.0-rc.3.js:1 | a field comes back as it was exactly when the wire can hold it: dates on 100 ms steps, upper-case codes, ids within the field, unbridged restrictions |
| TcString.FirstThreeBits | docs/theme/c15t@2.0.0-rc.3.js:1 | the first letter of a segment tells its first three bits |
| TcString.SegmentReads | docs/theme/c15t@2.0.0-rc.3.js:1 | those bits select the segment that was written, and all its fields read back, unless it is a core with a CMP id of 0 or 1, which the decoder refuses |
| TcString.TcStringRoundTrip | docs/theme/c15t@2.0.0-rc.3.js:1 | an encoded consent string decodes exactly when no core with a CMP id of 0 or 1 was written, and then gives every field of its segments the value the wire carries and leaves all others alone |
| WireLayout.NumberStands | docs/theme/c15t@2.0.0-rc.3.js:1 | a number stands with its highest bit first |
| TcLayout.SegmentStands | docs/theme/c15t@2.0.0-rc.3.js:1 | every field stands at its literal position: the core from its version at 0 to the country code at 201, at 213 the vendor consents and right after them the legitimate interests and the restrictions; the other segments after their three-bit type |
| TcLayout.TextSpells | docs/theme/c15t@2.0.0-rc.3.js:1 | each character stands for six bits in the base64url alphabet, filled up with zeros to whole groups of four |
| TcLayout.ConsentStringLayout | docs/theme/c15t@2.0.0-rc.3.js:1 | a consent string is the texts of the segments asked for, in order and joined by dots, each spelling bits laid out so |
| TcStringLimits.VendorsEncodeIff | docs/theme/c15t@2.0.0-rc.3.js:1 | a vendor vector is written exactly when its largest id is below 65536 and a chosen range list has fewer than 4096 ranges |
| TcStringLimits.RestrictionsEncodeIff | docs/theme/c15t@2.0.0-rc.3.js:1 | restrictions are written exactly when entries, purposes, ranges and ids fit their fields |
| TcStringLimits.FieldEncodesIff | docs/theme/c15t@2.0.0-rc.3.js:1 | each encoder fails exactly on what its field cannot hold; a code of fewer than two characters is refused here at its field, in the source at its segment |
| TcStringLimits.ModelEncodesIff | docs/theme/c15t@2.0.0-rc.3.js:1 | a model is written exactly when its version is 2 and every field of the segments fits |
| TcStringLimits.PlainModelRoundTrip | docs/theme/c15t@2.0.0-rc.3.js:1 | a model without any consent is written in any segments and comes back unchanged |
| TcStringLimits.UnsetCmpIdIsRefused | docs/theme/c15t@2.0.0-rc.3.js:1 | the same model with a CMP id of 0 is written but not read back |

## Left out

- Checkpoints, the action log, telemetry, emitted events, tool call locations, titles, token usage, modes and drafts of the thread: calls into other components, without effect on the modelled state.
- Entities, files, images and Markdown rendering: an entity is an identity with a text; a Markdown that only one record refers to is modelled by its text; JSON values are modelled by whether and how they are shown.
- The conversion of an update into a complete tool call, which belongs to a protocol library: its result is a parameter of the updates that use it.
- Whether the agent supports truncation and retrying: parameters, in that the corresponding events are then not part of a run.
- The panic on answering a call that is not waiting, which only debug builds have; the model follows release builds.
- The assertion in the 0.1.0 upgrade that tool results follow an assistant's message, which only debug builds check: the model follows release builds here too.
- The 32-bit wrap-around of turn ids and the rounding of 32-bit floats in the reveal rate: natural numbers and the exact ceiling are used.
- Polling and thread switches between the atomic updates: tasks advance by one event at a time, in any order their dependencies allow.
- How often and when timers fire: ticks are events that may come at any time.
- A failing or dropped caller's future: the completion handler then simply never runs, which a run allows.
- `extract_duplicate_info`, `areas_match` and `filter_magnets_by_areas` in the two scripts: short filters that would only add easy members.
- Python integers with underscores, signs or non-ASCII digits, and whitespace outside ASCII: the report's own lines never contain them.
- The version dispatch and the older format upgrades in `legacy_thread.rs`: JSON parsing and field-by-field maps.
- The consent model as an object with checked setters, version 1 strings, the defaults filled in before encoding, the choice of segments by service, and case mapping outside ASCII: the codec works on a map from fields to values.
- The vendor list as an object: the set of ids it lists is a parameter.
- `create_terminal`, which registers a terminal under a new unique id without an event, and `kill_terminal`: the first equals a creation nothing waits for, the second leaves the registry alone.
- Subagent marks and the kinds, inputs and names of tool calls other than whether a call runs a command: stored and never looked at by the modelled updates.
- The mention parser and printer: mostly calls into a URL library.
- Restrictions.PurposeRestrictionVector.Add: models a vector without an attached vendor list, because the checks a list adds decide only which additions are refused.
- AcpThread.AcpThread.UpdateToolCall: a diff entity is its path and two texts, so later edits of a live diff by its tool are not modelled.
- TcStringLimits.FieldEncodesIff: a language or country code of fewer than two characters fails here at the field, because a field can only be written as bits; the source's encoder writes text that is not bits for it, and only the encoder of the whole segment refuses that.
