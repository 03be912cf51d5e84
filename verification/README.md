# Verified model of the Subport relay and ledger

Subport resells upstream LLM subscriptions: it relays chat requests to a pool of accounts with
failover, translates the upstream's chat-completions stream for Anthropic and Responses clients, and
bills every call against a quota. This project models those parts in Dafny and proves properties of
every run of them. `dafny verify dfyconfig.toml` checks the whole project.

The model has four parts.

* **Streaming.** Byte strings, line splitting and trimming are concrete. `Protocol` says on values what
  the translator does; the class `ResponseWriter` does it in place, over a client connection that may
  fail after any number of bytes. `EventStream` is an independent reader written from sections 9.2.5
  and 9.2.6 of the WHATWG HTML Standard. `Streaming` is the forwarding loop and the buffered adapters,
  `Relaying` the failover walk above them. `ClientViews` is a client that decodes the events it dispatches, and
  `ContentFrames` what is taken from an upstream's frames and made of a buffered reply. `WholeRun` is what a translated client sees of a complete run,
  lost or not, `PlainClients` what a chat client reads, and `SilentCuts` the runs that count as begun too early.
* **Scheduling.** `Accounts`, `UpstreamErrors`, `Routing` and the class `Scheduler` are the pick and
  the health rules; `Walks` and `WalkPositions` prove where a walk goes although its own failures
  change the pool it picks from; `ModelAlias` is the chain of models one request may try.
* **Pricing.** `Pricing` is the fixed-point cost, over unbounded integers and in 64 bits.
* **Ledger.** `Ledger`, `Compensations` and `Recharging` say on values what each statement or
  transaction does, and the class `Store` does it in place. `Billing` lets any number of requests,
  administrators, payment notifications and restarts interleave, one statement or transaction a step;
  `Holds`, `Charges`, `Admission`, `Bills` and `OrderRuns` prove what every such run keeps. `Handlers`
  is the hold, settle and release protocol of the request handlers, and `Interleavings` that protocol among others.

## Where the code does less than its comments say

Each of these is a lemma, stated exactly.

* A cut can lose its error event. A translated client loses it exactly when the upstream stopped in mid-line: the
  error frame is glued to the unfinished line (`WholeRun.CutIsReportedIffLineEnded`). A chat client, whose stream is
  passed through, loses it also at the end of a line inside an event: the error becomes part of that event's data
  (`PlainClients.PlainCutIsReportedIff`, `PlainClients.CutInsideEventIsSwallowed`).
* A stream reported as served reaches its completion or an upstream error for a translated client, except exactly
  when no complete line is terminal and its `[DONE]` is an unterminated last line
  (`WholeRun.ServedIsEndedUnlessDoneIsLost`); any open stream gives such a case (`WholeRun.UnterminatedDoneIsLost`).
* A buffered adapter reports that no byte was sent, although some were, exactly when the client takes some of
  the first frame and not all of it (`Streaming.FlagMissesPartialFrame`).
* An attempt can count as begun, so be charged and not failed over, although its client got nothing: a buffered
  call that broke off in mid-body, and a stream to a translated client that was cut, or ended without a `[DONE]`,
  when it had carried only lines the translator swallows. These are all (`SilentCuts.SilentCutIff`,
  `SilentCuts.CommentThenCut`, `Handlers.UnsentCutIsCharged`).
* A success on a paused account clears its cooldown but leaves it paused, and then no pick and no reaper
  run finds it (`Accounts.SuccessBringsBackOnlyHealthy`, `Scheduling.SuccessStrandsPausedAccount`). A
  pause for timeouts or 403s keeps a stale cooldown (`Accounts.PauseKeepsStaleCooldown`,
  `Accounts.StaleStampIsReached`).
* After a call that took its account out of the pool, the next pick by index skips one live account:
  `SkippedAccounts.SecondAccountIsSkipped` is such a walk, `WalkPositions.CallPosition` counts the skipped
  positions, and `WalkPositions.KeepsPlaceIff` says when there are none. An account the operator disabled comes
  back by itself when it stored an expired stamp (`Accounts.SwitchKeepsTheRest`).
* A settlement whose transaction fails keeps its hold until the next restart, since the handler takes it
  for settled (`Holds.OnlyLostSettlementsLeak`).
* A manual top-up with an order, for a user that does not exist, leaves a paid order without a top-up
  (`Recharging.ToppingUpIsWholeIff`). A top-up can turn an unlimited user into a limited one
  (`Recharging.TopupHelpsUnlessUnlimited`).
* The 64-bit cost is exact only up to a bound (`Pricing.Int64IsExactIff`), which unpriced models reach
  at 922,337,203 tokens (`Pricing.UnpricedCostsItsTotalIff`).

## Model

| member | source | states |
|---|---|---|
| Bytes.SplitIsExact | internal/gateway/sse_protocol.go:46-57 | The buffered text is exactly its complete lines, each with its newline, and then the residue, which has none. |
| Bytes.SplitOfConcat | internal/gateway/sse_protocol.go:46-57 | Splitting a text in one go, or splitting a first part and going on from its residue, finds the same lines and the same residue. |
| Bytes.TrimSpaceIsExact | internal/gateway/sse_protocol.go:71-77 | Trimming takes white space off both ends, all of it, and nothing else. |
| Bytes.TrimRightIsExact | internal/gateway/stream.go:188-190 | Trimming on the right takes off the longest tail of the given characters and nothing else. |
| Protocol.ChunkingInvariance | internal/gateway/sse_protocol.go:41-93 | For any split of a stream into writes, the events, the bytes sent, the buffer, and the started, closed and text-length fields are those of one write of the whole. |
| Protocol.BufferIsResidue | internal/gateway/sse_protocol.go:46-57 | After a write the buffer has no newline and is what follows the last newline of all that was written. |
| EventStream.RoundTrip | internal/gateway/sse_protocol.go:247-281 | Any sequence of events with a name and no line break in it, printed as frames and read by the event-stream rules, is dispatched as exactly that sequence. |
| EventStream.ReadFrame | internal/gateway/sse_protocol.go:247-281 | The three lines of one frame dispatch its one message and leave the reader's buffers empty. |
| EventStream.CutStreamIsPrefix | internal/gateway/sse_protocol.go:247-281 | Any front of the printed bytes dispatches a front of the printed events. |
| ProtocolTrace.TraceOfActions | internal/gateway/sse_protocol.go:114-245 | After any lines the events are the script of the texts before the first terminal line and of its ending; the text length, started and closed fields say the same. |
| ProtocolTrace.BodyIsPrinted | internal/gateway/sse_protocol.go:247-281 | The client's bytes are the printed events, all of them and nothing else. |
| ProtocolTrace.ClientReads | internal/gateway/sse_protocol.go:41-281 | However the stream is cut into writes, a conforming client dispatches exactly the scripted events. |
| ProtocolTrace.ScriptGrammar | internal/gateway/sse_protocol.go:114-245 | Every trace is empty, a lone error, or one message: the opening and at least one delta, the same and one error, or the opening, deltas and the completion with the byte length of the text. |
| ProtocolTrace.TextConserved | internal/gateway/sse_protocol.go:156-175 | The deltas a client assembles are the texts before the first terminal line, none lost and none added. |
| ProtocolTrace.StreamGrammar | internal/gateway/sse_protocol.go:41-245 | Every translated stream, cut into writes anyhow, follows the grammar and conserves its content. |
| ProtocolTrace.ClosedIsFinal | internal/gateway/sse_protocol.go:67-71 | After a terminal event no further line changes anything. |
| ClientViews.PayloadIsRead | internal/gateway/sse_protocol.go:114-245 | A client written from the event shapes of the two protocols reads from the JSON object of each event its model, its text, how the message ended with the token count, or the error with type and message. |
| ClientViews.MessagesAreRead | internal/gateway/sse_protocol.go:247-281 | Decoding the data of every dispatched message in turn, the client has what the events say, where JSON brings each event's object back. |
| ClientViews.ClientSees | internal/gateway/sse_protocol.go:41-281 | However the stream is cut into writes, the text the client joins from the decoded messages is the content before the first terminal line; it reads a token count, that of the text's bytes, exactly when the stream was completed, and the error's type and message exactly when it was cut. |
| ContentFrames.FrameIsDelta | internal/gateway/sse_protocol.go:67-112 | The content taken from a frame is that of all its choices, joined in order; a frame without any is swallowed. |
| ContentFrames.UntypedErrorIsBroken | internal/gateway/sse_protocol.go:215-245 | An error frame without a type is reported as a broken stream with its message. |
| ContentFrames.TypedErrorKeepsType | internal/gateway/sse_protocol.go:215-245 | One with a type is reported under that type. |
| ResponseWriters.ResponseWriter.EnsureStarted | internal/gateway/sse_protocol.go:114-154 | Prints the opening events exactly once; a lost client has a prefix of them. |
| ResponseWriters.ResponseWriter.WriteDelta | internal/gateway/sse_protocol.go:156-175 | Prints the opening if none was printed, then the delta, and counts its bytes; a lost client has a prefix. |
| ResponseWriters.ResponseWriter.WriteDone | internal/gateway/sse_protocol.go:177-213 | Prints the completion once, with the text length so far, and closes the session. |
| ResponseWriters.ResponseWriter.WriteBroken | internal/gateway/sse_protocol.go:215-245 | Prints one error event with the frame's type and message and closes the session. |
| ResponseWriters.ResponseWriter.HandleLine | internal/gateway/sse_protocol.go:67-93 | Does what the line's action says: ignore, delta, completion or error; nothing once closed. |
| ResponseWriters.ResponseWriter.Write | internal/gateway/sse_protocol.go:41-59 | Takes all bytes, handles every line completed so far and keeps the residue; when the client is lost it has a prefix of what it would have had. |
| LawfulCodec.SomeCodecIsLawful | internal/gateway/stream.go:72-87 | The facts assumed of JSON texts are consistent, whatever encoding does to bytes that are not UTF-8: a codec with all of them exists. |
| Streaming.SawDoneMeansLine | internal/gateway/stream.go:169-205 | The flag is set exactly when some line of the body was a `[DONE]` frame. |
| Streaming.BilledMeansLine | internal/gateway/stream.go:188-248 | A stream bills a positive number exactly when some frame reported a positive usage or carried content, and never a negative one. |
| Streaming.CountLine | internal/gateway/stream.go:188-213 | One line updates the counts as the counting function says: `[DONE]`, usage, summed content. |
| Streaming.ForwardLine | internal/gateway/stream.go:169-187 | A line goes out whole before it is counted; when it does not, the client has a prefix of what it would have had and the first-byte flag tells whether it has anything. |
| Streaming.Forward | internal/gateway/stream.go:163-236 | Forwards the whole body, or loses the client on a prefix of it; success exactly when the body ended after a `[DONE]` line, first-byte flag exactly when something was sent. |
| Streaming.SendReply | internal/gateway/provider_claude.go:262-287 | A failed call writes nothing; a reply is sent as one frame and `[DONE]`, or the client is lost on a prefix and the flag says whether everything the first frame stands for went out. |
| ContentFrames.ReplyIsDelivered | internal/gateway/provider_claude.go:262-287 | A translated client gets a buffered reply as one delta of its content, if it has any, and the completion. |
| ContentFrames.ReplyIsRead | internal/gateway/provider_claude.go:262-287 | A chat client reads a buffered reply as one message with its JSON object and then the `[DONE]` message. |
| ContentFrames.ReplyObjectSays | internal/gateway/provider_claude.go:262-287 | That object carries the reply's content and its token count. |
| Streaming.FlagMissesPartialFrame | internal/gateway/provider_claude.go:273-275 | For a client that takes any number of bytes, a report that none was sent is true except exactly when it takes some of the first frame and not all. |
| Streaming.FlagWithoutOutputIff | internal/gateway/provider_claude.go:218-223 | An attempt that handed nothing to the client's writer says output had begun exactly when it is a buffered adapter whose own call broke off and says so. |
| SilentCuts.SilentCutIff | internal/gateway/sse_protocol.go:11-59 | For a fresh client of any kind: an attempt says output had begun although the client got nothing if and only if it is such a buffered call, or a non-empty stream to a translated client whose every complete line was swallowed and which was cut or had no `[DONE]` line. |
| SilentCuts.NothingOutIff | internal/gateway/sse_protocol.go:67-245 | A translated client got nothing exactly when every line was swallowed. |
| SilentCuts.CommentThenCut | internal/gateway/stream.go:169-230 | A comment line and then a reset is such a stream. |
| Streaming.RetryableIsSilent | internal/gateway/stream.go:132-236 | An attempt that reports no first byte has put nothing out, whatever its adapter and its upstream. |
| Streaming.StreamUpstream | internal/gateway/stream.go:16-22 | One attempt passes on its whole output and reports its result, or loses the client on a prefix. |
| Streaming.WriteStreamError | internal/gateway/stream.go:72-87 | Writes the error frame where the stream stands, best effort. |
| Relaying.RelayStream | internal/gateway/stream.go:24-63 | The calls form a finished walk; the client holds output of one attempt only, with at most its error frame; a client that never fails holds exactly the serving attempt's output. |
| WholeRun.TranslatedRun | internal/gateway/stream.go:24-87 | What a fresh translator is given in a run: nothing when no attempt was served, else one session with the last attempt's content; a conforming client dispatches exactly these events. |
| WholeRun.RelayToFreshClient | internal/gateway/stream.go:24-87 | The relay into a fresh translator: an unserved run puts nothing out; any other delivers one session with the last attempt's texts, ended when served unless the `[DONE]` was lost, and reporting the cut when the upstream stopped at the end of a line and nothing terminal came before. What the client decodes from it is those texts joined, and that ending. |
| WholeRun.CutIsReportedIffLineEnded | internal/gateway/stream.go:72-87 | After a cut a translated client gets the error event if and only if nothing terminal came before and the upstream stopped at the end of a line. |
| WholeRun.ServedIsEndedUnlessDoneIsLost | internal/gateway/stream.go:163-236 | A stream reported as served leaves the session open if and only if no complete line is terminal and its residue is a `[DONE]` line; the client then has the opening and the deltas and no completion. |
| WholeRun.ServedRunEnding | internal/gateway/stream.go:24-63 | The same for a served attempt of any adapter; a buffered reply never loses its `[DONE]`. |
| WholeRun.UnterminatedDoneIsLost | internal/gateway/sse_protocol.go:46-57 | Any stream that is still open, followed by an unterminated `[DONE]`, is reported a success and loses its completion. |
| WholeRun.LostClientReadsPrefix | internal/gateway/sse_protocol.go:247-281 | A client that got only the front of a translated stream dispatches the front of its events and nothing else. |
| WholeRun.LostRunReadsPrefix | internal/gateway/stream.go:24-87 | A client lost anywhere in a run has dispatched part of the events of one attempt. |
| PlainClients.PlainCutIsReportedIff | internal/gateway/stream.go:72-87 | A chat client reads the error frame as a message of its own if and only if the upstream stopped at the end of a line with no event data begun, or in a lost line after an unfinished event of the very same data. |
| PlainClients.CutInsideEvent | internal/gateway/stream.go:72-87 | At the end of a line inside an event, the error becomes the last line of that event's data and is no message of its own. |
| PlainClients.CutInsideEventIsSwallowed | internal/gateway/stream.go:72-87 | One data line and then a cut is such a case. |
| PlainClients.RelayToPlainClient | internal/httpapi/server.go:166-173 | The relay to a chat client: nothing when unserved, the last attempt's output when served, that output and the error frame when cut, read as above. |
| CompletionBills.BillIsCompletionAndRest | internal/gateway/stream.go:188-248 | Without reported usage a stream is billed the text length of its completion plus the content of the lines from the first terminal one on, where typed and untyped decoding find the same content before it. |
| CompletionBills.LastUsageIsBilled | internal/gateway/stream.go:188-248 | If a line reports a positive total and no later line does, exactly that total is billed, whatever content the stream carried. |
| CompletionBills.ContentIsBilledOtherwise | internal/gateway/stream.go:188-248 | Without any reported usage, the bytes of the content are billed. |
| CompletionBills.FrameIsDecoded | internal/gateway/stream.go:188-205 | Usage and content of a frame are decoded from the JSON text after `data:`, with or without its line end. |
| CompletionBills.StreamSucceedsIff | internal/gateway/stream.go:163-236 | A stream succeeds exactly when its body ended after a `[DONE]` line; otherwise output counts as begun exactly when the body was not empty; the billed tokens are reported either way. |
| Scheduling.Scheduler.Pick | internal/gateway/gateway.go:107-158 | The tier map, sorted keys and running counter return the attempt-th eligible live account sorted stably by priority; with none live, the attempt-th cooling one sorted stably by expiry. |
| Scheduling.FlattenIsStableSort | internal/gateway/gateway.go:125-145 | Reading the tiers in ascending order is sorting stably by priority. |
| Scheduling.PickedMayServe | internal/gateway/gateway.go:107-158 | A picked account may serve the model, is schedulable unless no eligible account is, and is never a paused one with a blank cooldown. |
| Scheduling.LivePicksByTier | internal/gateway/gateway.go:125-145 | While an account may serve, a later attempt never finds a better tier than an earlier one. |
| Scheduling.EveryLiveIsPicked | internal/gateway/gateway.go:125-145 | Every account that may serve is picked by some attempt. |
| Scheduling.FallbackPicksSoonest | internal/gateway/gateway.go:147-175 | With none that may serve, attempts pick in ascending order of the stored stamps, and accounts without a readable stamp come last. |
| Scheduling.EveryCoolingIsPicked | internal/gateway/gateway.go:112-157 | Then every eligible account that is not paused with a blank cooldown is picked by some attempt. |
| Scheduling.FirstFallbackIsSoonest | internal/gateway/gateway.go:147-157 | The first attempt then picks an account whose stamp is not after that of any account it could fall back on. |
| Scheduling.PickedIsRouted | internal/gateway/routing.go:14-65 | A picked account's provider is one of a best matching route, unless no enabled route matches or it is the mock provider. |
| Scheduling.OnlyAccountPicked | internal/gateway/gateway.go:107-158 | A lone account is picked by the first attempt exactly when it may serve and is not paused with a blank cooldown. |
| Scheduling.SuccessStrandsPausedAccount | internal/gateway/health.go:86-93 | A paused account with a stamp is picked when nothing else is left; after its success no attempt ever picks it and no reaper run brings it back. |
| StableSorting.StableSortIsUnique | internal/gateway/gateway.go:147-157 | Whatever sorts stably by a key gives the same sequence. |
| Scheduling.Scheduler.SetAccountHealth | internal/gateway/gateway.go:85-97 | Switches one account; enabling clears its cooldown, the counters stay. |
| Scheduling.Scheduler.NoteUpstreamResult | internal/gateway/health.go:68-151 | Changes the named account in place as the health rules say, and no other. |
| Scheduling.Scheduler.ReapCooldowns | internal/gateway/health.go:167-195 | Re-enables exactly the unhealthy accounts whose parsed cooldown is not after now, and counts them. |
| Accounts.SwitchKeepsTheRest | internal/gateway/gateway.go:85-97 | The switch changes one account and no counter; an enabled account may be scheduled at every instant, a disabled one at none until the reaper finds an expired stamp stored. |
| Accounts.NoteTouchesOnlyItsAccount | internal/gateway/health.go:68-85 | A result changes only the named account, never its identity, provider or tier. |
| Accounts.FailureNeverEnables | internal/gateway/health.go:94-151 | After a failure no account is schedulable that was not before. |
| Accounts.FailurePausesIff | internal/gateway/health.go:94-151 | A healthy account is paused exactly by its third timeout, second 403 or third rate limit in a row; a failure counts for its own class only, and the first 240 bytes of its text are stored. |
| Accounts.RateLimitedIsOut | internal/gateway/health.go:118-137 | Whatever the error text, a rate-limited account is unschedulable at that instant, with a stamp strictly after now despite truncation and less than a day away: the second in which the cooldown the error asks for ends, or one minute without any. From then on it can be scheduled or, if paused, reaped. |
| Accounts.StatedResetIsStored | internal/gateway/upstream_errors.go:215-239 | A reset time the error states, between one second and a day away, is stored as the cooldown to the second. |
| Accounts.ReapBringsBackExpired | internal/gateway/health.go:167-195 | The reaper brings back exactly the unhealthy accounts whose parsed cooldown is not after now, schedulable and with zero counters, and leaves the others alone. |
| Accounts.SuccessBringsBackOnlyHealthy | internal/gateway/health.go:86-93 | After a success an account is schedulable if and only if it was not paused; a paused one is out of every pool and the reaper never finds it. |
| Accounts.PauseKeepsStaleCooldown | internal/gateway/health.go:138-149 | An account just paused for timeouts or 403s can be reaped at once if and only if an expired stamp was stored before; with none stored the pause lasts five minutes for timeouts and fifteen for 403s, cut to whole seconds. |
| Accounts.StaleStampIsReached | internal/gateway/health.go:101-149 | A healthy account gets there: one rate limit and two 403s a day later leave it paused and reapable at once. |
| Accounts.CountersTellHistory | internal/gateway/health.go:68-195 | Over any run of results, reaper runs and operator switches, each counter is the number of failures of its class since the last success or reap, and an account with three timeouts, two 403s or three rate limits counted is paused unless the operator enabled it since. |
| UpstreamErrors.CooldownFor | internal/gateway/upstream_errors.go:215-239 | The cooldown an error asks for is none, or between one second and 24 hours. |
| UpstreamErrors.CooldownFollowsReset | internal/gateway/upstream_errors.go:42-116 | The cooldown is the wait until the first stated value that says a time: a time stamp, seconds or milliseconds since 1970, or a wait of less than a week, cut to whole seconds; it is used when more than a second and less than a day. |
| UpstreamErrors.CooldownFollowsRetryAfter | internal/gateway/upstream_errors.go:69-74 | When no value says a time, `Retry-After` seconds from now do. |
| UpstreamErrors.CooldownWithoutTime | internal/gateway/upstream_errors.go:215-239 | Without either it is one minute for a rate or usage limit or a 429, and none for any other error. |
| Routing.ProvidersForModel | internal/gateway/routing.go:14-46 | Reports a match exactly when an enabled route matches, and allows exactly the providers of matching routes of the best priority. |
| Routing.AccountEligibleForModel | internal/gateway/routing.go:50-65 | An account is eligible when no route matches, its provider is allowed, or it is the mock provider. |
| Walks.LogShape | internal/gateway/gateway.go:204-241 | Calls come in order, at most one an attempt, and all but the last failed before their first byte. |
| Walks.CallsAreBounded | internal/gateway/gateway.go:199-256 | A walk makes at most three calls for each model of the chain. |
| Walks.LaterModelNeedsRetryableError | internal/gateway/gateway.go:242-248 | Every later model was reached through a latest error before the first byte that is a 429, a server error, a rate limit or a usage limit. |
| Walks.EveryAttemptIsMade | internal/gateway/gateway.go:204-241 | No attempt is left out: each of three a model called the account picked from the pool as it then was, or none could be picked. |
| Walks.UnservedWalkIsExhausted | internal/gateway/gateway.go:242-256 | A walk that ended neither served nor cut made three attempts on its last model, and either no model was left or the latest error was none of those. |
| Relaying.Relay | internal/gateway/gateway.go:199-256 | The nested loop leaves a log of calls that is a finished walk, the accounts are those after its results, and the outcome is that of the last call. |
| WalkPositions.OrderAfterFailure | internal/gateway/health.go:94-151 | Noting a failure takes its account out of the tier order or leaves the order as it was. |
| WalkPositions.LeavesPoolIff | internal/gateway/health.go:94-151 | A schedulable account leaves the pool if and only if the failure is a rate limit, its third timeout in a row or its second 403. |
| WalkPositions.CallPosition | internal/gateway/gateway.go:204-241 | With the clock fixed and some account live at every pick, attempt k of a model goes to position k plus the number of its earlier calls that removed their account, in the order the model started with; so no account is called twice and no tier is entered again. |
| WalkPositions.KeepsPlaceIff | internal/gateway/gateway.go:204-225 | Attempt k goes to position k of the order the model started with if and only if no earlier call of the model removed its account. |
| SkippedAccounts.SecondAccountIsSkipped | internal/gateway/gateway.go:207-225 | Three live accounts of one tier and two rate limits: the calls go to the first and the third account, and the second is live throughout and never called. |
| ModelAlias.ResolveModelAlias | internal/gateway/model_alias.go:112-132 | A name resolves to its own alias, else to an alias under a key that differs in case only, else to itself. |
| ModelAlias.ModelAttemptChain | internal/gateway/model_alias.go:136-172 | The chain is the canonical model and then the first allowed number of non-blank, once-resolved fallbacks that are new up to case, in order. |
| ModelAlias.ChainIsShortDistinctAndComplete | internal/gateway/model_alias.go:136-172 | The chain repeats no model even in another case, holds at most the allowed fallbacks, and when shorter names every model of the fallback list. |
| ModelAlias.ChainFollowsList | internal/gateway/model_alias.go:136-172 | The fallbacks are named, in order, by entries of the canonical model's list, or of the requested name's when that is empty; each is the first new one after those before it, and there are at most the configured number, or two. |
| ModelAlias.WalkIsBounded | internal/gateway/gateway.go:199-256 | The finished walk of a request made at most three calls for the model and each allowed fallback. |
| ModelAlias.RelayRequest | internal/gateway/gateway.go:199-203 | A whole request: its chain, then the walk over it, within that bound. |
| Pricing.CostIsNearest | internal/model/pricing.go:104-130 | The cost is the nearest whole unit to the exact charge times the ratio, a half rounding up, and never negative, whatever the configuration. |
| Pricing.TotalOnlyCost | internal/model/pricing.go:104-130 | A call with only a total costs the nearest unit to the total times the input rate times the ratio, over 10,000,000,000; nothing at a negative rate or ratio. |
| Pricing.BreakdownCost | internal/model/pricing.go:104-130 | A call with a breakdown costs the nearest unit to the sum of each class times its own rate, times the ratio, over 10,000,000,000, whatever its total. |
| Pricing.CostIsMonotone | internal/model/pricing.go:104-130 | More billable tokens of any class never cost less. |
| Pricing.SplitBill | internal/model/pricing.go:96-100 | A call billed in n pieces costs within (n + 1) / 2 units of the call billed whole. |
| Pricing.TwoPieces | internal/model/pricing.go:96-100 | Billed in two pieces a call costs within one unit of the call billed whole. |
| Pricing.Int64IsExactIff | internal/model/pricing.go:113-129 | For non-negative counts and rates, the 64-bit computation is exact if and only if the scaled charge and the rounding half fit in an int64. |
| Pricing.UnpricedCostsItsTotalIff | internal/store/store.go:607-614 | At list ratio a call to an unpriced model costs exactly its total if and only if the total is at most 922,337,203. |
| Ledger.ReadBackIff | internal/store/sqlite_keys.go:23-38 | A usage row is read back as the log that was written exactly when the log's total is its token count. |
| Ledger.MarksAreCredited | internal/store/store.go:505-517 | Marking logs compensated takes exactly their costs off the user's charges, and nothing off anyone else's. |
| Compensations.WindowIsNewest | internal/store/sqlite_keys.go:159-177 | The window holds a log of the user exactly when fewer than the limit of the user's logs are newer; a negative limit is none. |
| Compensations.RecentIsNewest | internal/store/store.go:484-487 | A compensation looks at exactly the user's newest logs, as many as its window holds. |
| Compensations.CompensationFiresIff | internal/store/store.go:489-503 | It fires exactly when the broken logs in the window are at least the configured number and share; an empty window counts as share zero. The counts it reports are those. |
| Compensations.CompensationMarksBroken | internal/store/store.go:505-523 | When it fires, the broken logs of the window are marked compensated and no others; when it does not, nothing changes. |
| Compensations.CutsAreCredited | internal/store/store.go:505-523 | A window of cut calls that fires credits fifty units for each. |
| Compensations.OnlyCutsAreCredited | internal/httpapi/server.go:176-208 | The log of a success or of a failure before output is never marked. |
| Compensations.QuietAfterwards | internal/store/store.go:478-523 | Right after a compensation the same compensation would credit nothing. |
| Stores.Store.ReserveQuota | internal/store/sqlite_quota.go:33-60 | The conditional update: the hold is added exactly when it fits or the user is unlimited; an unknown user and an exhausted quota are different errors. |
| Stores.Store.ReleaseQuota | internal/store/sqlite_quota.go:65-71 | Takes the amount off the reservation, floored at zero. |
| Stores.Store.SettleUsage | internal/store/sqlite_quota.go:81-111 | Log row, charge and release of the hold as one new state. |
| Stores.Store.CompensateBrokenStreams | internal/store/store.go:480-523 | The counting, collecting, marking and crediting loops leave the state and result the compensation function gives. |
| Stores.Store.GetEffectiveRatio | internal/store/store.go:583-599 | Override, then group, then list ratio; always positive. |
| Stores.Store.PriceCall | internal/store/store.go:607-614 | The cost and the rate snapshot it was computed from. |
| Stores.Store.CreatePaymentOrder | internal/store/recharge.go:38-64 | An order under a non-empty key that exists is returned, else the order is added; the one returned is on file. |
| Stores.Store.MarkOrderPaidAndCredit | internal/store/sqlite_recharge.go:89-167 | One transition from pending to paid with its top-up and credit; anything else changes nothing. |
| Stores.Store.AdminManualTopup | internal/store/recharge.go:91-137 | The three statements in their order, with what a failure in between leaves. |
| Holds.HoldsAlwaysMatch | internal/store/sqlite_quota.go:33-111 | In every reachable state of any interleaving, every user's reserved quota is the sum of that user's holds. |
| Holds.RestartKeepsHolds | internal/store/sqlite_schema.go:130-143 | A restart leaves no call in flight and every user's reservation zero, from any state. |
| Holds.HoldIsReserved | internal/store/sqlite_quota.go:62-71 | A hold in flight is never more than what is reserved, so the floor at zero never cuts it short. |
| Holds.HoldIsReturnedOnce | internal/httpapi/server.go:158-200 | Closing a call gives its hold back in full and touches no other user; nothing done to it at any time up to the next restart has any effect. |
| Holds.OnlyLostSettlementsLeak | internal/httpapi/server.go:193-200 | Reserved quota covers the holds in flight, and equals them if and only if no settlement of the user, with a hold on it, was a failing step since the last restart. |
| Charges.CompensationKeepsCharges | internal/store/store.go:503-523 | The credit is never negative and never more than the user was charged, so its floor at zero never bites. |
| Charges.AlwaysSound | internal/store/sqlite_quota.go:81-111 | Every step keeps the invariants of holds and charges, and no user's opening usage ever changes. |
| Charges.MoneyIsConserved | internal/store/store.go:478-523 | Over any run, used quota is the opening usage plus the cost of the user's logs not marked compensated. |
| Admission.AdmissionIsSafe | internal/store/sqlite_quota.go:24-60 | For a limited user whose total only rises, used plus reserved quota never exceeds the total plus what settled calls cost over their holds. |
| Admission.HoldsAreAdmittedIff | internal/store/sqlite_quota.go:24-60 | Positive holds made one after the other are all admitted if and only if the user is unlimited or has room for their sum; then exactly that sum is reserved and nothing else changed. |
| Admission.NeverOverTotal | internal/store/sqlite_quota.go:1-15 | When no call costs more than its hold, used plus reserved never exceeds the total, however many requests race. |
| Admission.OvershootIsAttained | internal/store/sqlite_quota.go:73-111 | The bound is exact: for any total and excess some run exceeds the total by exactly that excess. |
| Bills.BillsExplainThemselves | internal/store/store.go:601-614 | Under any interleaved price, group and override edits, each successful row written since has the cost of its stored parts at its stored rates, with a positive ratio, an older one keeps that property, and no row changes but by being marked compensated. |
| Bills.BreakdownIsPricedFromList | internal/store/store.go:607-614 | Counts split by class cost the nearest unit to the sum of each class times its listed rate, times the user's ratio, and the snapshot has just these rates. |
| Bills.SecondCompensationCreditsNothing | internal/store/store.go:478-523 | A repeated compensation credits zero whatever ran in between, as long as the user has no new log. |
| Billing.ThreeReads | internal/store/store.go:583-614 | With nothing in between, the three separate reads find the rate one atomic pricing would. |
| Recharging.PaymentKeeps | internal/store/sqlite_recharge.go:89-167 | A notification credits exactly when the order is pending, and keeps the invariants of orders and top-ups. |
| Recharging.PaymentIsIdempotent | internal/store/recharge.go:78-87 | A second notification for an order changes nothing and reports it as already paid. |
| Recharging.PaymentCredits | internal/store/sqlite_recharge.go:89-167 | The notification of a pending order without a top-up marks it paid, adds exactly one top-up of its id, user and credit, and raises a known owner's total by exactly that credit and no other user's. |
| Recharging.TopupCredits | internal/store/recharge.go:91-137 | A positive manual top-up for a known user raises exactly that total by the credit and adds one top-up, with one paid order if asked. |
| Recharging.OrderedIsOnFile | internal/store/recharge.go:36-64 | The order answered with is the one asked for, added at the end, or one of the same user under the same non-empty key, and then nothing changed. |
| Recharging.OrderingKeeps | internal/store/recharge.go:36-64 | Creating an order keeps one order per user and non-empty key and changes no paid order. |
| Recharging.ToppingUpIsWholeIff | internal/store/recharge.go:91-137 | A manual top-up keeps paid orders and top-ups in step if and only if it is not one with an order for an unknown user. |
| Recharging.TopupHelpsUnlessUnlimited | internal/store/sqlite_recharge.go:30-41 | A top-up keeps every request admissible that was if and only if it does not lift an unlimited user above zero. |
| OrderRuns.OrdersStaySound | internal/store/sqlite_recharge.go:89-167 | Over any run an order is credited at most once and only when paid, top-ups match their orders, keys are unique per user, and a paid order never changes. |
| OrderRuns.RechargeIsExactlyOnce | internal/store/recharge.go:78-137 | Over any run without a manual top-up for an unknown user, each paid order has exactly one top-up and no other order has any. |
| OrderRuns.TotalIsToppedUp | internal/store/sqlite_recharge.go:30-41 | A user's total is its own total plus the sum of its top-ups, unless it was set outright. |
| Handlers.HoldFollowsLength | internal/httpapi/quota.go:37-49 | A longer conversation is never held for less; below 8004 bytes the hold is 4000, from there half the length to within two tokens, and never above the cap, which is 200,000 unless a positive one is configured. |
| Handlers.ReservationFor | internal/httpapi/quota.go:37-49 | The summing loop gives the estimate of the summed lengths. |
| Handlers.HoldFor | internal/httpapi/quota.go:53-74 | A hold is positive and within the cap. |
| Handlers.Admit | internal/httpapi/quota.go:65-74 | Reserves the sized hold and returns it, or the refusal and nothing held. |
| Handlers.SettleFailed | internal/httpapi/protocols.go:324-348 | A failed call is settled at zero, a cut one at the nominal cost and then considered for compensation. |
| Handlers.HandleCall | internal/httpapi/server.go:148-255 | A whole request is a run of the step system: admission, then the price reads and settlement, the failure settlement, or the release on a panic; refused exactly when the hold does not fit. It leaves one charge: the hold is gone, the owner is charged once less what a compensation gives back, one log is left unless it panicked, and no other user changed. |
| Interleavings.RatedAmongOthers | internal/store/store.go:583-614 | Whatever others do between them, the three reads leave the call priced at a positive ratio. |
| Interleavings.CallClosesAmongOthers | internal/httpapi/server.go:158-255 | Whatever others do between the handler's steps, its closing step gives the hold back in full and writes the call's own log, and the call stays closed. |
| Handlers.UnsentCutIsCharged | internal/httpapi/server.go:176-208 | In a silent cut the client got nothing, the walk ends, and the call is charged the nominal cost of a cut stream. |
| Handlers.CallLeavesNoHold | internal/httpapi/protocols.go:51-95 | However the relay ends the hold is gone, the call is charged once less what a compensation gives back, one log is left unless the handler panicked, and no other user's row changes. |
| Handlers.ServedCallIsPricedFromList | internal/httpapi/server.go:225-244 | A served call is charged the nearest unit to its tokens (the provider's count, else the reply's length) times the listed input rate (or one unit a token) times the user's ratio (own, else group, else one). |

## Left out

* Real JSON, regular expressions, case folding and error-text matching: parameters (`Codec`, `Matching`, `AliasConfig`, `ErrorReader`). What is assumed of JSON is listed in `Codec.Lawful`, for every byte string as message; what encoding makes of bytes that are not UTF-8 is its parameter `clean`.
* That JSON brings back the events and replies of a run is a hypothesis where a client decodes them (`ReadsBack`, `ReplyReadsBack`), with strings cleaned as above; numbers above 2^53, which a float64 does not hold, do not meet it.
* HTTP itself: headers, flushing, status codes, request decoding, key lookup (the owner of a call is the user its key names), OAuth, token refresh and credential caches.
* The mock provider's `Stream`, which prints fixed words, and the per-provider request converters and reply aggregators: a buffered adapter's complete call is a parameter.
* The mapping from an account's provider to its adapter: each attempt of a walk is a parameter.
* Persisting health in the background: the scheduler in memory is the model.
* Other goroutines during a walk: its picks and updates see only its own changes, at clock readings that are parameters.
* Cooldown stamps beyond the year 9999, which RFC 3339 formatting does not round-trip.
* 64-bit overflow of token counts, quota columns and sums of costs; only the cost computation is modelled in 64 bits.
* The broken rate is a real number, not a float64, so a rate within rounding of the threshold may decide differently.
* Failing statements other than a settlement, and a crash between the statements of a compensation or of a manual top-up.
* Fields that no modelled decision reads: key, account, attempts and time of a usage row, amounts, payment links and times of an order, note and operator of a top-up. Identifiers are fresh.
* Credits outside an order and outside a manual top-up (`AddQuotaCredit` called on its own) and orders created by a caller that already sets a status or an identifier: nothing in the repository does either.
* Log lines, `TouchKey` and every read-only listing.
- ModelAlias.ModelAttemptChain: the alias table is taken not to change between resolving the name and building the chain, which the source does under two separate locks.
- WalkPositions.CallPosition: says nothing of attempts at which no account was live; there the pick falls back to cooling accounts and can return one already tried.
- Handlers.HandleCall: the method runs alone in the store; its steps among those of others are the subject of `Interleavings.CallClosesAmongOthers` and of the runs of `Billing`.
- Compensations.WindowIsNewest: newest is by insertion; the source orders by a time stamp text that drops trailing zeros, so two rows of the same second may come the other way round.
- Recharging.PaymentKeeps: starts from a state in which no order has more than one top-up, which every run keeps.
