# SheJane: models and proofs

This project models the parts of SheJane whose correctness is hard to see from one function at a time, and proves
what they promise over every input, every run or every interleaving. `dafny verify dfyconfig.toml` checks it.

| module | what it models |
|---|---|
| `Seccomp` | the compiler from a system call policy to a classic BPF program, and an interpreter for the four opcodes used |
| `WindowsQuoting` | the argument quoter of the Windows launcher, and the Microsoft C/C++ rules that read its output |
| `Base64Url` | unpadded base64url (section 5 of RFC 4648), code verifiers and diagnostics tokens |
| `Authorization` | the native authorization flow as steps between suspension points, and the manager object that takes them |
| `Diagnostics` | enabling, disabling, submitting and renewing under two locks, and the manager object |
| `Sse` | the incremental server-sent event reader |
| `RunPresentation` | the client's reducer of revisioned items |
| `Projection`, `ProjectionContent`, `FactsGrowth`, `EventReplay` | the server's projection of durable facts, which items it shows, what later projections keep of it, and the upserts replayed to a resuming client |
| `RunEvents`, `ThreadSnapshot`, `ThreadWriters` | paged reads of a growing log and of a changing thread, and the writers of that thread |
| `CommandDelivery` | delivery of the pending command outbox by concurrent workers |
| `DevTrace` | the event de-duplicator with its bounded dictionary |
| `SpanTree` | the span forest of a run trace |
| `MarkdownWriter`, `MarkdownContent` | the bounded Markdown writer and its four converters, and what they write |
| `Common`, `Sorting` | an option type, orders on ids, and stable insertion sorting with its laws |

An asynchronous program is modelled as a transition system: each stretch between two suspension points is one
atomic step, and a run is any sequence of steps, possible or not. Loops and objects of the source are methods and
classes proved against those step functions. Awaited operations (stores, network, clocks, random bytes, the
keyring) are parameters of the steps, so every theorem holds whatever they answer. A server read by pages is a
function from request numbers to answers, restricted only by the page contract of the server code.

## Where the code promises less than it seems

Most of these are proved at a concrete run or input; the lemmas named give the exact condition under which the promise
holds.

- A client that resumes an event stream can go on showing stale items. `PlanResolutionIsMissed`: resolving a plan
  logs `plan.approval_resolved`, while both lists of sent event types name `plan.resolved`; the wait item changes at
  its old revision and nothing carries it. `ReplacedNoticeStays`, `CleanupThenFailure`: when a run whose cleanup was
  required fails, the client shows both notices. A receipt that changes without an event is caught up only by a
  terminal event, which repeats the calls. `ResumeCatchesUp` is the exact condition.
- A disable that returns does not always leave no diagnostics token. `FailedRollbackRun`: an enable stores its
  token, fails to patch the settings and fails to delete the token again; the settings name no connection, so a
  later disable deletes nothing. `StaleRenewalRun`: a renewal stores a token after an enable of another connection
  has replaced its own. `DisabledMeansForgotten` says exactly when a token survives, as far as a delete that returns
  has deleted: the source also returns when the keyring reports that the entry could not be deleted.
- A thread migrated from before items had positions has all of them at position 0. If a page boundary falls there,
  the next page is asked for below position 0, which the route refuses, and the thread cannot be read
  (`MigratedThreadIsRefused`; `QuietRead` and `FateIff` are the exact condition).
- The probe's own path is quoted like an argument, but argv[0] has another rule: a trailing backslash comes back
  doubled and a quote cannot be written (`TrailingBackslashIsDoubled`, `ProbeCommandParsesBack`).
- A workbook is reported as truncated when a sheet is above the cell cap, even if all of the text fitted
  (`EmptySheetOverCap`, `XlsxMarkdown`).
- A denied list of more than 2043 numbers, with the uint16 length or the kernel's 4096 instruction limit, is
  refused as a whole (`LongListIsRefused`, `LoadableIffShort`).
- The send check of a submission is made before its event is built and posted: a disable that begins in between
  does not stop that post (`PassesIffNotOvertaken` is about the check alone).

## Model

| member | source | states |
|---|---|---|
| Seccomp.BuildFilters | runtime/native/managed-worker-linux/main.go:691-712 | The instruction list built by the loop gives, for every system call, the verdict of the policy |
| Seccomp.CheckStep | runtime/native/managed-worker-linux/main.go:704-709 | A denied-number pair refuses its number and otherwise lets control reach exactly the next pair |
| Seccomp.ChecksDecide | runtime/native/managed-worker-linux/main.go:704-710 | From the n-th check on, a call is refused exactly when its number is among the remaining ones, else allowed |
| Seccomp.CloneDecides | runtime/native/managed-worker-linux/main.go:696-702 | The clone block refuses clone with the user-namespace flag and otherwise reaches the denied list with the number reloaded |
| Seccomp.UserNamespaceBitIsInLowWord | runtime/native/managed-worker-linux/main.go:699-700 | The 32-bit load at offset 16 sees the flag exactly when the 64-bit first argument has it |
| Seccomp.FilterMeansPolicy | runtime/native/managed-worker-linux/main.go:686-712 | For every architecture, clone number, denied list and call: the program always returns, with kill on a foreign architecture, EPERM exactly for denied numbers or clone with the namespace flag, allow otherwise |
| Seccomp.SameCallsDenied | runtime/native/managed-worker-linux/main.go:724-734 | The amd64 and the arm64 list deny the same nineteen calls, each by its own number there, and nothing else; architecture and clone numbers are those of the kernel |
| Seccomp.NumbersDiffer | runtime/native/managed-worker-linux/main.go:724-734 | Within one architecture no two named calls share a number |
| Seccomp.LoadableIffShort | runtime/native/managed-worker-linux/main.go:711 | What the uint16 length lets the kernel see passes its bounds checks exactly when at most 2043 numbers are denied, and is then the whole program |
| Seccomp.LongListIsRefused | runtime/native/managed-worker-linux/main.go:711 | Any list of 2044 numbers is refused as a whole |
| Seccomp.InstallSeccomp | runtime/native/managed-worker-linux/main.go:686-734 | Both supported architectures submit a loadable program meaning their policy; any other is refused |
| WindowsQuoting.Quote | client/native/managed-worker-vm-windows.cpp:141-161 | The loop writes the quoted form, and the Microsoft argument rules read it back as that one value |
| WindowsQuoting.QuoteFromParsesBack | client/native/managed-worker-vm-windows.cpp:145-158 | From any loop state, with any backslashes held back, the rest of the quoted text is read back as what was held and what was left |
| WindowsQuoting.QuotedParsesBack | client/native/managed-worker-vm-windows.cpp:141-161 | Quoted text followed by anything that starts a new argument gives the value and then the arguments of the rest |
| WindowsQuoting.FlagParsesBack | client/native/managed-worker-vm-windows.cpp:478 | A bare flag is read back as itself |
| WindowsQuoting.TailParsesBack | client/native/managed-worker-vm-windows.cpp:477-479 | Every list of quoted values and bare flags, one space apart, splits back into its texts |
| WindowsQuoting.ProgramNameParsed | client/native/managed-worker-vm-windows.cpp:477-478 | Under the separate rule for argv[0], a quote-free program path comes back with its trailing backslashes doubled |
| WindowsQuoting.ProbeCommandParsesBack | client/native/managed-worker-vm-windows.cpp:477-480 | The probe command line parses to its four arguments exactly when nothing holds a NUL and the program path has no quote and no trailing backslash |
| WindowsQuoting.TrailingBackslashIsDoubled | client/native/managed-worker-vm-windows.cpp:477-480 | The program path `C:\` comes back with two backslashes |
| Base64Url.EncodeShape | runtime/src/shejane_runtime/shejane_authorization.py:319-320 | Stripping the padding removes the padding and nothing else: length (4n+2)/3, unreserved characters only |
| Base64Url.DecodeUndoesDigits | runtime/src/shejane_runtime/central_diagnostics.py:481 | The padded decoder undoes the encoder for every byte sequence |
| Base64Url.RoundTrip | runtime/src/shejane_runtime/shejane_authorization.py:319-320 | Re-padding and decoding gives the bytes back |
| Base64Url.EncodeInjective | runtime/src/shejane_runtime/shejane_authorization.py:319-320 | Different byte sequences have different encodings |
| Base64Url.VerifierShape | runtime/src/shejane_runtime/shejane_authorization.py:87-88 | 32 random bytes give 43 unreserved characters, as section 4.1 of RFC 7636 requires |
| Base64Url.RfcExamples | runtime/src/shejane_runtime/shejane_authorization.py:319-320 | Examples of section 10 of RFC 4648, and one with the two characters of the URL-safe alphabet, encode as published |
| Base64Url.TokenCharacterization | runtime/src/shejane_runtime/central_diagnostics.py:477-485 | A token is accepted exactly when it is the prefix and the encoding of some 32 bytes, and those bytes are unique |
| Authorization.NextKeeps | runtime/src/shejane_runtime/shejane_authorization.py:73-317 | Every stretch between suspension points keeps the invariant that ties secrets, claims, exchanges and the principal index together |
| Authorization.RunKeeps | runtime/src/shejane_runtime/shejane_authorization.py:73-317 | The invariant holds after every interleaving |
| Authorization.GrantIff | runtime/src/shejane_runtime/shejane_authorization.py:208-264 | A callback starts an exchange exactly for two distinct keys holding the current state and a code that is not empty |
| Authorization.RefusalEnds | runtime/src/shejane_runtime/shejane_authorization.py:215-263 | Any other callback on an active authorization ends it with both secrets erased |
| Authorization.LeavesPendingOnce | runtime/src/shejane_runtime/shejane_authorization.py:160-317 | Once not pending, nothing of an authorization ever changes |
| Authorization.ClaimIsExclusive | runtime/src/shejane_runtime/shejane_authorization.py:176-214 | Once claimed, no callback, expiry or start changes it: only its own exchange does |
| Authorization.CanceledIsOver | runtime/src/shejane_runtime/shejane_authorization.py:148-158 | Once the exchange of a claimed authorization is canceled, nothing of the authorization ever changes |
| Authorization.TimerRuns | runtime/src/shejane_runtime/shejane_authorization.py:85-169 | In every run, an authorization that waits for its callback has its timer running, unless it was canceled at shutdown |
| Authorization.ConnectsWithToken | runtime/src/shejane_runtime/shejane_authorization.py:290-301 | In every run, the service is connected with a token that the exchange was given, and it is not empty |
| Authorization.ExchangeOnce | runtime/src/shejane_runtime/shejane_authorization.py:264-300 | In every run at most one exchange starts per authorization, by a callback that presented the issued state and a non-empty code, and a request carries the issued verifier and a granted code |
| Authorization.SecretsAndPrincipals | runtime/src/shejane_runtime/shejane_authorization.py:73-127 | At every suspension point an authorization that is not pending has empty state and verifier, and a principal has one pending authorization at most |
| Authorization.EndsAsTold | runtime/src/shejane_runtime/shejane_authorization.py:160-317 | In every run an authorization is pending with no error and no connection until an event ends it, and then shows what that event says: expired by its timer, denied or failed by the query of its callback, failed by its request, succeeded or failed by how connecting went |
| Authorization.EndingStays | runtime/src/shejane_runtime/shejane_authorization.py:160-317 | Conversely, an event that ends an authorization has the last word on its status, error and connection |
| Authorization.SucceedsIffConnected | runtime/src/shejane_runtime/shejane_authorization.py:301-309 | In every run an authorization has succeeded exactly when it has a connection, and it has a connection exactly when its exchange was resumed with that one while connecting |
| Authorization.IssuedAsDrawn | runtime/src/shejane_runtime/shejane_authorization.py:85-127 | In every run an authorization was issued the encodings of the bytes that a start of its principal drew under its id, and holds just these while it waits |
| Authorization.StartGoesThrough | runtime/src/shejane_runtime/shejane_authorization.py:73-127 | A start that is not disturbed registers a pending authorization with its secrets, and its timer runs |
| Authorization.StartIsOne | runtime/src/shejane_runtime/shejane_authorization.py:73-84 | While a principal has a pending authorization or is starting one, another start changes nothing |
| Authorization.CallbackGoesThrough | runtime/src/shejane_runtime/shejane_authorization.py:208-289 | A good callback claims the authorization, cancels its timer, erases its state and hands its code and verifier to one request |
| Authorization.ExchangeGoesThrough | runtime/src/shejane_runtime/shejane_authorization.py:290-309 | A posted exchange that is given a token and a connection succeeds with that connection and erases the verifier |
| Authorization.AuthorizationManager.constructor | runtime/src/shejane_runtime/shejane_authorization.py:47-71 | The manager starts empty |
| Authorization.AuthorizationManager.Start | runtime/src/shejane_runtime/shejane_authorization.py:73-88 | Updates the object as the start step says; a pending authorization of the principal is returned instead of a new one |
| Authorization.AuthorizationManager.StartNew | runtime/src/shejane_runtime/shejane_authorization.py:85-127 | Registers the opened authorization as the model step says, or releases the lock if the server did not open |
| Authorization.AuthorizationManager.Expire | runtime/src/shejane_runtime/shejane_authorization.py:160-169 | Updates the object as the expiry step says |
| Authorization.AuthorizationManager.ReceiveCallback | runtime/src/shejane_runtime/shejane_authorization.py:171-270 | Updates the object as the callback step says |
| Authorization.AuthorizationManager.SendRequest | runtime/src/shejane_runtime/shejane_authorization.py:274-289 | Updates the object as sending the exchange request does |
| Authorization.AuthorizationManager.ReceiveToken | runtime/src/shejane_runtime/shejane_authorization.py:290-301 | Updates the object as a received token does |
| Authorization.AuthorizationManager.StopExpiry | runtime/src/shejane_runtime/shejane_authorization.py:148-158 | Updates the object as a canceled expiry does |
| Authorization.AuthorizationManager.StopExchange | runtime/src/shejane_runtime/shejane_authorization.py:148-158 | Updates the object as a canceled exchange does |
| Authorization.AuthorizationManager.FailExchange | runtime/src/shejane_runtime/shejane_authorization.py:296-300 | Updates the object as a failed exchange does |
| Authorization.AuthorizationManager.Complete | runtime/src/shejane_runtime/shejane_authorization.py:301-309 | Updates the object as the connecting step says: succeeded with the connection it was given, failed without one (`SucceedsIffConnected`), erasing the verifier in every case |
| Diagnostics.NextKeeps | runtime/src/shejane_runtime/central_diagnostics.py:147-366 | Every stretch between suspension points of configure, submit and renew keeps the lock and token invariant, for any number of connections |
| Diagnostics.RunKeeps | runtime/src/shejane_runtime/central_diagnostics.py:147-366 | The invariant holds after every interleaving, for each connection |
| Diagnostics.OthersKept | runtime/src/shejane_runtime/central_diagnostics.py:160-190 | A step of one call leaves intact what every other call relies on, by the locks each holds |
| Diagnostics.CalmIsDisabled | runtime/src/shejane_runtime/central_diagnostics.py:181-194 | The recorded history bit is true exactly when a disable has returned and no enable has stored a token since |
| Diagnostics.StrandedIsKept | runtime/src/shejane_runtime/central_diagnostics.py:206-221 | The recorded set holds a connection exactly when its token was left behind and not settled since |
| Diagnostics.DisabledMeansForgotten | runtime/src/shejane_runtime/central_diagnostics.py:181-194 | After a disable has returned and before an enable stores again, the settings are off and a token is stored exactly when it was stranded: by a failed rollback, a failed delete of the replaced token, or a renewal overtaken by an enable of another connection |
| Diagnostics.OnlyRollbackStrands | runtime/src/shejane_runtime/central_diagnostics.py:202-219 | With one connection only a failed rollback strands a token |
| Diagnostics.OneConnectionIsForgotten | runtime/src/shejane_runtime/central_diagnostics.py:147-222 | With one connection, whatever renewals were in flight, nothing is stored after a disable unless a rollback failed and no enable settled since |
| Diagnostics.FailedRollbackRun | runtime/src/shejane_runtime/central_diagnostics.py:217-219 | A run with one connection in which the token survives a successful disable |
| Diagnostics.StaleRenewalRun | runtime/src/shejane_runtime/central_diagnostics.py:336-366 | A run with two connections in which a renewal in flight leaves a token that a later disable does not delete |
| Diagnostics.AccountedKept | runtime/src/shejane_runtime/central_diagnostics.py:155-169 | The in-progress counter is the number of disables begun and not ended, after every step |
| Diagnostics.TraceIsAccounted | runtime/src/shejane_runtime/central_diagnostics.py:155-169 | The counter agrees in every state of every run |
| Diagnostics.TraceOf | runtime/src/shejane_runtime/central_diagnostics.py:147-366 | Every run has a trace of states, whose last one is the state the run ends in |
| Diagnostics.OvertakenNeverPasses | runtime/src/shejane_runtime/central_diagnostics.py:231-270 | A submission that began before a disable began never passes a send check after it |
| Diagnostics.PassesIffNotOvertaken | runtime/src/shejane_runtime/central_diagnostics.py:262-270 | At its send check a submission passes exactly when no disable has begun since the submission did |
| Diagnostics.SubmissionEndsIff | runtime/src/shejane_runtime/central_diagnostics.py:231-274 | A submission ends exactly when it is resumed and what it awaited failed, the settings are off or no longer name its target, a disable overtook it, or it has posted |
| Diagnostics.SubmissionGoesOn | runtime/src/shejane_runtime/central_diagnostics.py:231-274 | Otherwise it keeps its generation and target, comes to its send check when it finds its token, goes from the check to posting, and comes nearer to it at every other step but waiting for the renewal lock; a token is minted only when none is found, and then stored |
| Diagnostics.PassingIsPosting | runtime/src/shejane_runtime/central_diagnostics.py:262-270 | Passing the send check is going on to post |
| Diagnostics.PostsIffNotOvertaken | runtime/src/shejane_runtime/central_diagnostics.py:231-274 | In every run, a submission that comes to its send check goes on to post exactly when no disable has begun since it did |
| Diagnostics.SubmissionEndsForAReason | runtime/src/shejane_runtime/central_diagnostics.py:231-274 | In every run, a submission that ends has failed in an operation it awaited, found the settings off or naming another connection, been overtaken by a disable begun since, or posted |
| Diagnostics.TokenIsObtained | runtime/src/shejane_runtime/central_diagnostics.py:243-274 | In every run, what a submission posts was found stored for its connection or stored for it by itself, and has not been rejected since |
| Diagnostics.SettingsChange | runtime/src/shejane_runtime/central_diagnostics.py:185-222 | The settings change exactly when an enable or a disable patches them, and to what it was called for |
| Diagnostics.EnableIsInForce | runtime/src/shejane_runtime/central_diagnostics.py:196-222 | In every run, an enable that comes to its report has the settings name its connection, and its token stored |
| Diagnostics.CentralDiagnosticsManager.constructor | runtime/src/shejane_runtime/central_diagnostics.py:109-126 | The manager starts with diagnostics off and both locks free |
| Diagnostics.CentralDiagnosticsManager.Configure | runtime/src/shejane_runtime/central_diagnostics.py:147-160 | Beginning a configure call updates the object as the model step says |
| Diagnostics.CentralDiagnosticsManager.SubmitTerminal | runtime/src/shejane_runtime/central_diagnostics.py:231-233 | Beginning a submission remembers the generation, or returns while a disable is in progress |
| Diagnostics.CentralDiagnosticsManager.ResumeDisable | runtime/src/shejane_runtime/central_diagnostics.py:160-194 | Each stretch of a disable updates the object as the model step says |
| Diagnostics.CentralDiagnosticsManager.ResumeEnable | runtime/src/shejane_runtime/central_diagnostics.py:196-222 | Each stretch of an enable updates the object as the model step says |
| Diagnostics.CentralDiagnosticsManager.ResumeRenewal | runtime/src/shejane_runtime/central_diagnostics.py:336-366 | Each stretch of a renewal updates the object as the model step says |
| Diagnostics.CentralDiagnosticsManager.ResumeSubmission | runtime/src/shejane_runtime/central_diagnostics.py:236-274 | Each stretch of a submission updates the object as the model step says, whose endings and progress are `SubmissionEndsIff` and `SubmissionGoesOn` |
| Sse.SplitIsExact | runtime/sdk/src/sse.ts:229-234 | Pieces, delimiters and rest make up the text, and no piece or rest holds a delimiter |
| Sse.SplitResumes | runtime/sdk/src/sse.ts:229-234 | Keeping the rest and reading on cuts a text as if it had been read at once, even inside a delimiter |
| Sse.ParseChunksConcat | runtime/sdk/src/sse.ts:231-233 | Parsing chunk lists in two parts is parsing them together, failures included |
| Sse.StreamAgentSSE | runtime/sdk/src/sse.ts:246-287 | The read loop computes the stream function of its pieces: handler calls, totals, completion and leftover, which `StreamMeans` tells from the parsed chunks |
| Sse.StreamIsOneParse | runtime/sdk/src/sse.ts:246-287 | For well-formed text the loop has the effect of one parse of the whole text |
| Sse.ChunkIndependence | runtime/sdk/src/sse.ts:246-287 | Two ways of cutting the same well-formed text lead to the same handler calls, totals and leftover |
| Sse.FailureIndependence | runtime/sdk/src/sse.ts:246-287 | For any text: the stream fails exactly when the whole text would, after handling only leading well-formed chunks |
| Sse.TrimExact | runtime/sdk/src/sse.ts:289-320 | Trimming takes white space, and all of it, from both ends and nothing else |
| Sse.ChunkIsRead | runtime/sdk/src/sse.ts:289-320 | A chunk of any lines means its data lines joined: nothing if it has none, the done marker, the event they spell, or a failure |
| Sse.ParseChunksKeep | runtime/sdk/src/sse.ts:231-233 | All chunks are kept in order but those without data, and one malformed chunk fails them all |
| Sse.HandlingMeans | runtime/sdk/src/sse.ts:246-287 | The caller is handed every event in order and the content of every text delta; the marker is seen exactly when it occurs; the totals are those of the last completion, 0 without one, and the request id the last one named |
| Sse.StreamMeans | runtime/sdk/src/sse.ts:246-287 | The same of the whole read loop, for well-formed text however it is cut, told from the parsed chunks alone |
| RunPresentation.MergeKeepsNewest | runtime/sdk/src/presentation.ts:37-49 | One upsert keeps the map the newest item per id of everything seen |
| RunPresentation.NewestSortedUnique | runtime/sdk/src/presentation.ts:58-62 | A set of items in which id and revision determine the item has one sorted list of newest items |
| RunPresentation.FoldIsNewest | runtime/sdk/src/presentation.ts:37-55 | After any changes the items are the newest per id of the known and upserted ones, sorted |
| RunPresentation.FoldWatermark | runtime/sdk/src/presentation.ts:51-53 | The high watermark is the largest of the old one and the upserted revisions |
| RunPresentation.UpsertsAndDrafts | runtime/sdk/src/presentation.ts:51-55 | Drafts survive upserts exactly when none is a final answer |
| RunPresentation.Convergence | runtime/sdk/src/presentation.ts:37-62 | The same set of upserts, reordered or repeated or mixed with draft changes, gives the same items and watermark |
| RunPresentation.StateConvergence | runtime/sdk/src/presentation.ts:37-62 | With upserts only, the whole states agree |
| RunPresentation.Recovery | runtime/sdk/src/presentation.ts:9-55 | A snapshot up to a revision and every later upsert, mixed with older ones again, give the items of the whole history |
| RunPresentation.LastOfNewestIsShown | runtime/sdk/src/presentation.ts:37-55 | Of all items of one id, the last upsert of the largest revision is shown, whatever else arrives and when |
| RunPresentation.EntriesKeepLast | runtime/sdk/src/presentation.ts:37-39 | Of the items of a snapshot with one id, exactly the last is known |
| RunPresentation.ShownInOrder | runtime/sdk/src/presentation.ts:58-62 | After any upsert the items are in order of event, then slot, then id |
| RunPresentation.DraftIsText | runtime/sdk/src/presentation.ts:22-55 | The draft of a round is the text of its deltas since it was last closed or a final answer came, and is there exactly when there has been one |
| Projection.ScanEvents | runtime/src/shejane_runtime/presentation.py:38-83 | The event loop collects the round items (exactly those of `ProjectionContent.RoundsShow`), the calls in order of appearance and the events of each call |
| Projection.ScanReceipts | runtime/src/shejane_runtime/presentation.py:85-163 | The receipt loop adds one item per shown receipt and records its call |
| Projection.ScanCalls | runtime/src/shejane_runtime/presentation.py:165-203 | The loop over the remaining calls adds an item for each that no receipt shows |
| Projection.ProjectRunPresentation | runtime/src/shejane_runtime/presentation.py:27-344 | The whole method computes the specified projection, whose members are told by `ProjectionContent.ProjectionShows` |
| Projection.RoundsGroup | runtime/src/shejane_runtime/presentation.py:48-83 | Items of different rounds, and the two of one round, have different ids and are dated by the log |
| Projection.CallsGroup | runtime/src/shejane_runtime/presentation.py:85-203 | Each tool call is shown at most once, by its receipt or by its events |
| Projection.WaitsGroup | runtime/src/shejane_runtime/presentation.py:205-249 | Wait items have distinct ids and are dated by the log |
| Projection.ArtifactsGroup | runtime/src/shejane_runtime/presentation.py:251-278 | Artifact items have distinct ids and are dated by the log |
| Projection.UnsortedChecked | runtime/src/shejane_runtime/presentation.py:38-336 | All groups together have distinct ids, each placed and revised by events of the log |
| Projection.ProjectionIsSound | runtime/src/shejane_runtime/presentation.py:38-344 | The result has distinct ids, is strictly sorted by event, slot and id, keeps every item, and gives each a revision between its order event and the largest event |
| ProjectionContent.RoundsShow | runtime/src/shejane_runtime/presentation.py:48-83 | The round items are exactly the reasoning and the text, where there are any, of each main round that called tools; the text has slot 1 exactly beside reasoning |
| ProjectionContent.ReceiptsShow | runtime/src/shejane_runtime/presentation.py:85-163 | The receipt items are exactly one for each main receipt whose call was requested, placed by its first request and revised by the last event of the call |
| ProjectionContent.BareCallsShow | runtime/src/shejane_runtime/presentation.py:165-203 | The items of bare calls are exactly one for each requested call that no receipt shows |
| ProjectionContent.WaitsShow | runtime/src/shejane_runtime/presentation.py:205-249 | The wait items are exactly one for each wait of a shown kind that has events, placed by the first and revised by the last |
| ProjectionContent.ArtifactsShow | runtime/src/shejane_runtime/presentation.py:251-278 | The artifact items are exactly one for each artifact with a creation event, revised by the last one |
| ProjectionContent.AnswerShows | runtime/src/shejane_runtime/presentation.py:279-301 | The answer is shown exactly when the assistant message has text and the run completed, at the last completion |
| ProjectionContent.NoticeShows | runtime/src/shejane_runtime/presentation.py:303-336 | The notice is shown exactly when the run failed, was canceled or required cleanup, for the last such event |
| ProjectionContent.ProjectionShows | runtime/src/shejane_runtime/presentation.py:27-344 | An item is in the projection exactly when the facts call for it in one of these seven ways, with kind, revision, place, slot and contents |
| FactsGrowth.ItemPersists | runtime/src/shejane_runtime/presentation.py:38-336 | While facts grow, every item but a replaced notice keeps its id, at its old revision or a later one |
| FactsGrowth.ReplacedNoticeIsGone | runtime/src/shejane_runtime/presentation.py:303-336 | Once another terminal failure is logged, nothing is projected under the id of the old notice |
| FactsGrowth.ProjectionsGrow | runtime/src/shejane_runtime/presentation.py:27-344 | Between two projections of a growing run no revision falls back, and an id disappears exactly when the notice was replaced |
| EventReplay.ReplayMembers | runtime/src/shejane_runtime/runs/event_stream.py:210-236 | A batch sends exactly the projected items that one of its events carries: by order, by revision, or as a call at a terminal event |
| EventReplay.FoldReplaces | runtime/sdk/src/presentation.ts:37-55 | Folding projected items onto a client that holds nothing newer shows what was sent, and what was held under other ids |
| EventReplay.ResumeCatchesUpIff | runtime/src/shejane_runtime/runs/event_stream.py:176-236 | Whatever the client holds, if nothing of it is newer: it shows the current projection exactly when every id it held is still projected and every item was held as it is or is sent |
| EventReplay.SentAbove | runtime/src/shejane_runtime/runs/event_stream.py:210-225 | Events above a watermark carry every item revised above it, and of the others exactly the calls, when one of the events is terminal |
| EventReplay.ResumeCatchesUp | client/src/features/chat/projection/runtimeStreamProjection.ts:268-285 | From the projection of earlier facts and every newer event, the client shows the current projection exactly when its notice was not replaced and whatever changed without a newer event is a call while a terminal event is replayed |
| EventReplay.CaughtUpIsEqual | runtime/sdk/src/presentation.ts:58-62 | With one order of ids, showing the same items means showing the same list |
| EventReplay.ReplayRebuilds | runtime/src/shejane_runtime/runs/event_stream.py:176-236 | An empty client that folds the replay of a whole log shows the projection, for all facts as the store reads them |
| EventReplay.PlanResolutionIsMissed | runtime/src/shejane_runtime/store/run_commands/waits.py:422-447 | Facts at which a resolved plan is missed: the resolution changes the wait item at its old revision, its event is of no sent type, the replay is empty and the client goes on showing the plan as waiting |
| EventReplay.ReplacedNoticeStays | runtime/src/shejane_runtime/presentation.py:303-336 | Whenever a later failure replaces the notice, the client shows the old one too, though it is projected no more |
| EventReplay.CleanupThenFailure | runtime/src/shejane_runtime/store/run_jobs/quarantine.py:138-195 | A run whose cleanup was required and then confirmed as failed has facts at which the notice is replaced |
| RunEvents.ListLocalRunEvents | runtime/sdk/src/runs.ts:131-154 | The paging loop computes the reading function: pages appended, cursor checked, bounded |
| RunEvents.CursorsAdvance | runtime/sdk/src/runs.ts:147-151 | Whatever a server answers, the cursors strictly advance and at most 10,000 requests are made |
| RunEvents.PageThenRest | runtime/src/shejane_runtime/store/run_state/__init__.py:395-407 | A full page and what a longer log holds after its cursor are what that log held before it |
| RunEvents.ReadIsComplete | runtime/sdk/src/runs.ts:131-154 | With a log growing between requests, the result is exactly the events above the cursor as of the last page |
| RunEvents.LimitMeansMany | runtime/sdk/src/runs.ts:138-153 | The page limit is met only with a thousand events for each page |
| RunEvents.PaginationIsComplete | runtime/sdk/src/runs.ts:131-154 | The whole call from any start cursor is complete, and gives up only above ten million events |
| RunEvents.ReadsFromStart | runtime/sdk/src/runs.ts:137-153 | From a start that is a safe integer the call returns exactly the events above it, or above 0 if it is negative, of the log as it was at the last page; from no start or an unsafe one, all events above 0 |
| ThreadSnapshot.ReadAttempt | runtime/sdk/src/threads.ts:56-109 | One attempt computes the paging function and makes at most 10,000 requests |
| ThreadSnapshot.GetLocalThreadSnapshot | runtime/sdk/src/threads.ts:49-113 | The call computes at most two attempts, the second from nothing, in at most 20,000 requests |
| ThreadSnapshot.NextPageIsNew | runtime/sdk/src/threads.ts:78-79 | Each page brings only items not yet gathered, so the map appends exactly that stretch of the list |
| ThreadSnapshot.PagesReach | runtime/sdk/src/threads.ts:63-106 | From any page on, pages that behave lead to the fate that the remaining boundaries determine |
| ThreadSnapshot.AttemptIsAtomic | runtime/sdk/src/threads.ts:63-106 | After its first page an attempt completes one version, or is refused, told of a conflict, or too long as its boundaries say; unchanging threads leave only the last two or completion |
| ThreadSnapshot.WholeAttemptIsAtomic | runtime/sdk/src/threads.ts:55-107 | An attempt returns all items of the version its own first request saw, or nothing |
| ThreadSnapshot.FateIff | runtime/src/shejane_runtime/thread_routes.py:63-85 | A read is blocked exactly when a page boundary falls on an item at position 0, and otherwise whole exactly up to two million items |
| ThreadSnapshot.ReadIsAtomic | runtime/sdk/src/threads.ts:49-113 | Any snapshot returned is all items of one version; data of a conflicted attempt is never mixed in |
| ThreadSnapshot.SnapshotIsWhole | runtime/sdk/src/threads.ts:85-98 | A snapshot has each item of its version once, in position order; with strict positions it is the list itself |
| ThreadSnapshot.QuietRead | runtime/sdk/src/threads.ts:49-113 | If no one writes, the outcome is exactly determined: refused at a boundary at position 0, whole, or too long |
| ThreadSnapshot.OneConflictIsAbsorbed | runtime/sdk/src/threads.ts:49-113 | If no one writes after the first attempt met a conflict, the read has the outcome that the thread has left alone: a conflict costs one attempt and no more |
| ThreadSnapshot.LimitMeansMany | runtime/sdk/src/threads.ts:108 | An attempt meets the page limit only on more items than all pages can hold |
| ThreadWriters.CreateKeeps | runtime/src/shejane_runtime/store/run_commands/__init__.py:305-452 | A new thread, with any seed history and its first turn, has distinct ids and strict positions from 1 on |
| ThreadWriters.AppendKeeps | runtime/src/shejane_runtime/store/run_commands/__init__.py:280-287 | A turn appended above the largest visible position keeps positions in order |
| ThreadWriters.RewriteKeeps | runtime/src/shejane_runtime/store/run_commands/__init__.py:267-278 | Superseding everything from a message on and appending a turn in its place keeps positions in order |
| ThreadWriters.WriteKeeps | runtime/src/shejane_runtime/store/run_commands/__init__.py:225-452 | Every write keeps ids distinct and visible positions in order |
| ThreadWriters.CreateShows | runtime/src/shejane_runtime/store/run_commands/__init__.py:305-452 | A new thread shows its history from position 1 on and then its first turn, with ids and texts |
| ThreadWriters.AppendShows | runtime/src/shejane_runtime/store/run_commands/__init__.py:280-287 | A turn leaves the visible items alone and adds the message and an empty answer right above the largest position |
| ThreadWriters.RewriteShows | runtime/src/shejane_runtime/store/run_commands/__init__.py:267-278 | A rewrite keeps what is before the named message and puts the new turn in its place; it does nothing exactly when there is no such message |
| ThreadWriters.SettleShows | runtime/src/shejane_runtime/store/run_state/__init__.py:188-222 | Settling gives the named item its text and changes no other |
| ThreadWriters.VersionsRise | runtime/src/shejane_runtime/store/run_state/__init__.py:188-222 | Over every run of writes the thread is unchanged or has a larger version |
| ThreadWriters.WritersAreVersioned | runtime/src/shejane_runtime/store/threads.py:107-130 | However writes fall between page requests, equal versions mean equal items, in valid order |
| ThreadWriters.EverySnapshotIsWhole | runtime/sdk/src/threads.ts:49-113 | Every snapshot returned while these writers run holds all items of one version, each once and in order; in a thread created by them it is that list itself |
| ThreadWriters.CreatedThreadIsRead | runtime/sdk/src/threads.ts:49-113 | A thread created by these writers and left alone is always read, up to two million items |
| ThreadWriters.MigratedThreadIsRefused | runtime/src/shejane_runtime/store/migrations.py:177-180 | A migrated thread of more than 200 items, all at position 0, cannot be read: its second page is refused |
| CommandDelivery.GroupByKey | runtime/sdk/src/run_command_delivery.ts:211-221 | The loop groups the commands by key in creation order, keys in order of first appearance |
| CommandDelivery.PartitionIsPermutation | runtime/sdk/src/run_command_delivery.ts:211-221 | Each command is in exactly one group |
| CommandDelivery.StepKeeps | runtime/sdk/src/run_command_delivery.ts:223-238 | Every step of any worker keeps the invariant between queues, attempts and settlements |
| CommandDelivery.RunKeeps | runtime/sdk/src/run_command_delivery.ts:222-239 | The invariant holds after every interleaving of the workers |
| CommandDelivery.PerKeyOrder | runtime/sdk/src/run_command_delivery.ts:226-236 | In every interleaving the settled commands of a key are a prefix of its queue, with at most one more attempted |
| CommandDelivery.QueueHolds | runtime/sdk/src/run_command_delivery.ts:213-221 | A queue holds exactly the commands of its thread, plugin or single command |
| CommandDelivery.HeldBackByOlder | runtime/sdk/src/run_command_delivery.ts:222-243 | When all workers have ended, a command that was not settled failed itself or is held back by a failed one of its own queue that is not newer: no failure stops another thread, plugin or single command |
| CommandDelivery.QueueIsByAge | runtime/sdk/src/run_command_delivery.ts:211-221 | In every queue an earlier place means an earlier or equal creation time |
| CommandDelivery.OlderIsSettledFirst | runtime/sdk/src/run_command_delivery.ts:212-236 | In every run, when a command is settled, every strictly older one of its thread or plugin has been settled before it |
| CommandDelivery.OlderIsSettledFirstInRounds | runtime/sdk/src/run_command_delivery.ts:205-243 | The same over any number of rounds |
| CommandDelivery.TiesAreSettledInInputOrder | runtime/sdk/src/run_command_delivery.ts:212-236 | In every run, commands of one thread or plugin created at the same time are settled in the order of the input |
| CommandDelivery.AllSettled | runtime/sdk/src/run_command_delivery.ts:222-243 | When all workers have ended and none has failed, exactly the input has been settled |
| CommandDelivery.FailedIsFinal | runtime/sdk/src/run_command_delivery.ts:232-235 | After a failure a worker attempts nothing more |
| CommandDelivery.Conservation | runtime/sdk/src/run_command_delivery.ts:240-243 | At the end delivered, failed and unattempted commands are exactly the input, and the count is the number settled |
| CommandDelivery.RoundsKeepOrder | runtime/sdk/src/run_command_delivery.ts:205-243 | Repeated rounds over the unsettled rest keep the settlement order of each key |
| DevTrace.FollowingIsSince | runtime/src/shejane_runtime/dev_trace.py:60-64 | In the recency order, what follows an id is exactly what came since its last occurrence |
| DevTrace.ByRecencyOrder | runtime/src/shejane_runtime/dev_trace.py:60-64 | The recency order is by last occurrence |
| DevTrace.InLastIffRecent | runtime/src/shejane_runtime/dev_trace.py:60-64 | An id is among the last 8,192 exactly when fewer than 8,192 other ids came since |
| DevTrace.TouchKeepsMostRecent | runtime/src/shejane_runtime/dev_trace.py:58-64 | One update of the dictionary keeps it the tail of the recency order |
| DevTrace.Tracer.constructor | runtime/src/shejane_runtime/dev_trace.py:29-36 | The tracer starts with no ids |
| DevTrace.Tracer.TraceStreamEvent | runtime/src/shejane_runtime/dev_trace.py:42-77 | An event is suppressed exactly when it is durable with an id seen recently; the dictionary stays the most recent distinct ids |
| SpanTree.BuildRunTrace | runtime/src/shejane_runtime/diagnostics_trace.py:9-168 | The loops build the specified span list |
| SpanTree.ChooseModel | runtime/src/shejane_runtime/diagnostics_trace.py:84-98 | The candidate search picks the specified parent of a top-level tool |
| SpanTree.LatestIsLatest | runtime/src/shejane_runtime/diagnostics_trace.py:86-98 | The parent is the first of the latest eligible model calls, and the root only when none is eligible |
| SpanTree.ToolParent | runtime/src/shejane_runtime/diagnostics_trace.py:80-122 | The parent of a tool, from the records alone: the operation it names, else the latest top-level model call of its attempt created no later (the first of its time), else the run |
| SpanTree.SpansAre | runtime/src/shejane_runtime/diagnostics_trace.py:26-168 | A span is in the trace exactly when it is the run, or the model, tool, child-run, checkpoint or terminal span of a record, with its parent |
| SpanTree.SpansRepresent | runtime/src/shejane_runtime/diagnostics_trace.py:26-167 | The list holds the span of every record, and nothing else but spans hung from the root |
| SpanTree.ToolReaches | runtime/src/shejane_runtime/diagnostics_trace.py:80-122 | With closed, ranked links every tool climbs to the root in finitely many steps |
| SpanTree.TreeIsClosed | runtime/src/shejane_runtime/diagnostics_trace.py:43-168 | If all parents are present, every operation named is one of the receipts |
| SpanTree.ChainsAreShort | runtime/src/shejane_runtime/diagnostics_trace.py:80-98 | Without a closed chain, a chain of parent operations has at most one operation more than there are receipts |
| SpanTree.RankedIffAcyclic | runtime/src/shejane_runtime/diagnostics_trace.py:80-98 | A rank that falls along every parent link exists exactly when no chain of parent operations closes |
| SpanTree.TreeIsAcyclic | runtime/src/shejane_runtime/diagnostics_trace.py:43-168 | If every span reaches the root, no chain of parent operations closes on itself |
| SpanTree.TreeIff | runtime/src/shejane_runtime/diagnostics_trace.py:9-168 | With distinct sources, the spans form a tree exactly when the operation links are closed and acyclic |
| MarkdownWriter.Overflow | runtime/src/shejane_runtime/document_markdown.py:72-84 | Once the limit is passed, what is left unwritten cannot change the outcome |
| MarkdownWriter.Output.WriteLimited | runtime/src/shejane_runtime/document_markdown.py:72-77 | Keeps the first characters up to the limit, and says whether all of it fitted |
| MarkdownWriter.Output.WriteBlock | runtime/src/shejane_runtime/document_markdown.py:80-84 | Writes a block set off by a blank line, within the limit |
| MarkdownWriter.Output.AppendShape | runtime/src/shejane_runtime/document_markdown.py:224-242 | Writes nested shape groups depth first and stops at the first refusal |
| MarkdownWriter.Output.WriteRows | runtime/src/shejane_runtime/document_markdown.py:171-196 | Writes the lines of a sheet, with the rule after the first one that is not empty |
| MarkdownWriter.CellCap | runtime/src/shejane_runtime/document_markdown.py:164-170 | Rows read times columns never exceed 100,000, a declared grid is read whole exactly when within that, and otherwise no row more would fit |
| MarkdownWriter.DocxMarkdown | runtime/src/shejane_runtime/document_markdown.py:131-155 | Text is the first characters of the unlimited rendering; the flag says whether that is longer |
| MarkdownWriter.PptxMarkdown | runtime/src/shejane_runtime/document_markdown.py:217-257 | The same for slides, with nested groups and notes |
| MarkdownWriter.PdfMarkdown | runtime/src/shejane_runtime/document_markdown.py:279-315 | The same for pages and their tables |
| MarkdownWriter.XlsxMarkdown | runtime/src/shejane_runtime/document_markdown.py:158-199 | The same for workbooks, whose flag is also set by a sheet above the cell cap |
| MarkdownWriter.EmptySheetOverCap | runtime/src/shejane_runtime/document_markdown.py:164-199 | An empty sheet declared above the cell cap has a rendering of four characters, and yet the workbook counts as cut |
| MarkdownWriter.DocumentToMarkdown | runtime/src/shejane_runtime/document_markdown.py:332-348 | For every document and positive limit the text is exactly the first `limit` characters, with the exact flag; other limits are refused |
| MarkdownContent.DocumentShows | runtime/src/shejane_runtime/document_markdown.py:131-315 | A text, slide or page document renders as its blocks that are not empty, from front to back, groups read in place, each slide and page with its header, contents and end in this order, one blank line between two |
| MarkdownContent.WorkbookShows | runtime/src/shejane_runtime/document_markdown.py:158-199 | A workbook renders as the titles and tables of its sheets in order, up to the first one that is above the cell cap |
| MarkdownContent.BlocksAreSpaced | runtime/src/shejane_runtime/document_markdown.py:80-84 | The blocks of a rendering are its texts that are not blank, one empty line between each two |
| MarkdownContent.DecimalSpells | runtime/src/shejane_runtime/document_markdown.py:245-289 | Slide and page numbers are spelled in decimal, without leading zeros |
| MarkdownContent.HeadersCount | runtime/src/shejane_runtime/document_markdown.py:245-289 | The i-th slide and the i-th page are headed by i |
| MarkdownContent.ParagraphShows | runtime/src/shejane_runtime/document_markdown.py:143-152 | A paragraph is its text after the hashes of its heading level or a list dash |
| MarkdownContent.EscapedIsContained | runtime/src/shejane_runtime/document_markdown.py:87-88 | An escaped cell has no line break and no bar that is not escaped |
| MarkdownContent.CellIsRead | runtime/src/shejane_runtime/document_markdown.py:87-88 | Unescaping an escaped cell gives the value with its line breaks flattened |
| MarkdownContent.LineIsRead | runtime/src/shejane_runtime/document_markdown.py:187 | Reading a table line at its bare bars gives its cells, each between two blanks |
| MarkdownContent.RowIsRead | runtime/src/shejane_runtime/document_markdown.py:182-188 | Column c of the line of a row, read back, is what the grid holds there; a column without a field is empty |
| MarkdownContent.TableIs | runtime/src/shejane_runtime/document_markdown.py:175-194 | The table of a sheet is its rows that are not empty, in order, with the rule of as many dashes as the first one has cells after it |

## Left out

- Task cancellation: a call ends only where an awaited operation of the model fails; a keyring write that a worker thread completes after its caller was cancelled is not modelled, except for the exchange cancelled at shutdown.
- DisabledMeansForgotten: does not count a token that the keyring refused to delete, because the source takes that report for the absence of the entry and goes on; the model's delete that returns has deleted.
- Principals of the diagnostics manager: the keyring account also holds the principal; one principal is modelled.
- Diagnostics sampling, run bindings, token expiry and event contents: each appears only as how an awaited step ended.
- Uniqueness of random values: an id drawn twice is refused by the model, since the source takes ids and states as never repeated.
- HTTP parsing of the callback request: a callback carries its decoded query pairs, or none when parsing fails or times out.
- Authorization status and close as seen by HTTP callers, and the texts of replies.
- JSON and UTF-8 decoding and envelope validation in the event stream: one partial function of the data text; a multi-byte character cut by a read is the decoder's matter.
- An event stream whose reader yields nothing is one empty piece; aborting a stream is not modelled.
- Locale order of ids and timestamps: ids are compared by any strict total order, timestamps as integers.
- Display texts, targets, failure details and durations of presentation items and spans: carried as opaque contents or dropped.
- The runs, events, watermarks and presentations merged beside the items of a thread snapshot.
- The SQLite queries behind pages: taken as the page contracts stated in `RunEvents` and `ThreadSnapshot`; a transaction is one step of `ThreadWriters`, and those that touch no item, version or projected fact are not part of this model.
- Admission checks of turns other than uniqueness of ids (an unsettled run, an archived thread): a write that is not admitted is absent from the run.
- Writers of receipts, waits and artifacts: facts may change in any way that keeps their keys (`FactsGrowth.Grown`); no row of these tables is ever deleted by the source.
- Several replays in a row: `ResumeCatchesUpIff` holds from any client state that is nowhere newer, `ResumeCatchesUp` for one replay onto a snapshot.
- Sending one command and deciding whether a failure is retryable: one branch per command kind, only easy members.
- The delta buffers and line writer of the development trace.
- Parsing of office and PDF files, charts, numbering repair, and the order of slide shapes: the blocks reach the writer as texts, shapes already in reading order.
- The rest of the Linux worker and the Windows launcher: cgroups, mounts and process creation are foreign calls; the kernel's program checks appear as the stated loading rules.
- Wide characters of the quoter: a string is a sequence of code units, compared only with backslash, quote, blank and NUL.
