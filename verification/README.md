# Prompt-audit sidecar: a verified model

The sidecar sits in front of an LLM gateway. It copies the text that users typed out of proxied
requests, queues it, and stores it for review, and it must not disturb the traffic it forwards.
This project models that core in Dafny and proves what it is for: exactly which texts are captured and when
one of them lies under a role that is to be left out, that the content of hidden items makes no difference
to what is stored unless it decides whether the body fits the capture limit, that every stored message can be
traced to its place in a request, that nothing is lost or stored twice unnoticed, and that forwarding is
transparent.

Check everything with `dafny verify dfyconfig.toml`.

## Layout

| module | subject |
|---|---|
| `Runes`, `Text`, `Utf8`, `Model` | UTF-8 after RFC 3629, white space, lower case, rune-wise truncation, finalisation (model.go) |
| `JsonTree`, `Protocols`, `Extractor` | JSON values and source paths; what each protocol takes, as functions; the mutating extractors, proved to have exactly those effects (extractor.go) |
| `AllowList`, `DocumentOrder`, `Noninterference`, `Statuses`, `Forms`, `Confinement`, `ConfinementExamples`, `CaptureSize`, `ExcludedRoles` | the theorems about extraction |
| `BodyCapture`, `HttpCapture`, `FrameRelay` | reading a body and relaying frames without changing them; the records they give rise to (proxy.go, websocket.go) |
| `RecordQueue`, `BlindQueue`, `Persist`, `GatedInsert`, `Pipeline` | the bounded queue as a concurrent state machine, the worker that stores records, its inserts behind the schema gate, and all together (queue.go, main.go, store.go) |
| `Origins`, `Confidentiality`, `Traceability` | from requests and frames to the table: what two whole runs have in common, and what one run's table says about its requests |
| `Schema`, `Sessions`, `Bootstrap`, `IdentityDirectory` | state machines with clocks, failures and interleavings (store.go, auth.go, main.go, identity.go) |
| `QueryCompiler`, `Paging` | the record filter compiled to SQL, and paging over its result (store.go) |

## Reading the model

- A Go string is a sequence of bytes. It is a Dafny `string` here, one character per byte; the theorems
  hold for all Dafny strings.
- Concurrent code is a state machine with one lock, channel, row or frame operation per step, and the
  theorems quantify over all step sequences. Code that runs alone is a class or method with loops, tied
  to a function of its inputs, and the theorems are about that function.
- The environment is explicit. JSON, MIME, multipart and form decoding, hashing, ILIKE, the lower-casing
  of a review status, the model name in a path and record identifiers are parameters; database failures,
  lost acknowledgements, read errors and clock readings are part of the input. Assumed where a theorem
  says so: one clock that does not go back, injective token hashes and key fingerprints, fresh tokens and
  record ids (what a token drawn twice can do is shown by `Sessions.SweepsShowWithoutFreshness`). A body's
  read error repeats on every later read.
- Statements about two runs give both the same environment, insert fates included. A real table limits that: its
  columns have widths, such as 255 characters for the model name (migrations/001_init.sql:14), so a key
  outside the prompt can make every insert of its record fail.
- `Lower` is exact for comparisons with ASCII text: besides A to Z it maps the two other characters whose
  lower case is ASCII, U+0130 and U+212A.

## What turned out not to hold

Each is kept as the code has it, with an example and the exact condition.

- `readBodyForCapture` loses the body when the capture limit is the greatest 64-bit integer, because
  `maxBytes+1` wraps around (proxy.go:143); config.go:81 allows that limit. `BodyCapture.ReadBodyForCapture`
  states transparency as an equivalence with this case excluded; `BodyCapture.WrapAroundLosesBody` is an
  example.
- `truncateUTF8` can cut inside a rune when the text holds invalid UTF-8, because `end` moves by the three
  bytes that the replacement rune would take (model.go:100). `Utf8.AlignedAtExactlyWhen` says for which
  texts and limits it does not, `Utf8.AlignedExactlyWhen` for which texts it never does;
  `Utf8.InvalidInputCanBeSplit` is an example at every limit from 3 on.
- Pages beyond offset 1,000,000 repeat rows (store.go:188-190). `Paging.PagesCoverExactly` is an
  equivalence with the offset bound; `Paging.ClampedPagesRepeat` shows the repeated row.
- An insert that commits but is reported as an error ends as a logged failure although the row is stored.
  `Persist.WriteOnce` says exactly when a row is there and when success is reported;
  `Persist.FailureMayBeStored` is an example.
- In the bootstrap such an insert means that nobody ever prints the initial credentials.
  `Bootstrap.PrintedExactlyWhenTold` says who prints in which runs;
  `Bootstrap.UnclearInsertLosesCredentials` is an example.
- Hidden content can make a difference: a system prompt that makes the body longer than the capture limit keeps
  the record from being stored (proxy.go:148-151). `HttpCapture.HiddenContentIsNotRecorded` is an equivalence
  with both bodies lying on the same side of the limit, unless there is nothing to record;
  `HttpCapture.LimitExample` is an example at every limit.
- Text under a role that is to be left out can be captured, in three ways. In Gemini `contents` only the
  roles model, system and developer are hidden, not "assistant" or "tool" (extractor.go:213-223); a part
  inside a user's content is taken whatever role it carries itself (extractor.go:298-304); and the role of
  the request object is not looked at. `Confinement.HiddenExactlyWhen` proves that there is no fourth way and
  `Confinement.SomethingHiddenExactlyWhen` says in which requests it happens;
  `ConfinementExamples.UngatedItemIsCaptured`, `ConfinementExamples.NestedSystemIsCaptured` and
  `ConfinementExamples.RootRoleIsCaptured` are examples, and `Confinement.NothingHiddenIsCaptured` is a condition on
  the request under which nothing of the kind happens.

## Model

| member | source | states |
|---|---|---|
| `AllowList.CapturedIffAllowed` | extractor.go:91-330 | For every protocol, request object and capture: a text is captured under a path if and only if the path passes every gate of the allow-list, which names roles, part types and fields literally and shares no test with the extractors, leads to exactly that text, and the text is not blank. |
| `AllowList.FrameCapturedIffAllowed` | extractor.go:58-89 | The same equivalence for one client WebSocket frame, including the `response.create` and `conversation.item.create` events. |
| `AllowList.InContent` | extractor.go:288-319 | The recursive content walk takes exactly the non-blank texts at content positions of the value, each under its own path. |
| `AllowList.PartTakes` | extractor.go:298-305 | A part with a text that is not blank gives exactly that text if and only if its type is missing, not a string, empty, "text" or "input_text" in any case; otherwise it gives what its content does. |
| `DocumentOrder.CapturedInOrder` | extractor.go:91-330 | Captures are strictly increasing in document order, so no position is taken twice. |
| `DocumentOrder.FrameCapturedInOrder` | extractor.go:58-89 | The same for one WebSocket frame. |
| `DocumentOrder.ExtractionIsTheOrderedAllowList` | extractor.go:91-330 | Any ordered list whose members are exactly the non-blank texts at allowed positions is the extraction: it equals its declarative description. |
| `DocumentOrder.Provenance` | extractor.go:112-330 | Every message of a finished JSON extraction carries its position as index, its source text names a path that reaches exactly its text in the request, and sources are pairwise distinct. |
| `DocumentOrder.FrameProvenance` | extractor.go:58-89 | The same for the messages of one WebSocket frame. |
| `JsonTree.PrintInjective` | extractor.go:294-312 | The printed source of a path determines the path, for all paths the extractor can build. |
| `Noninterference.HiddenContentIsInvisible` | extractor.go:91-286 | Two requests that agree on the seven prompt keys, up to what items of hidden roles contain, give the same messages, prompt text, hash, status and truncation flag, whatever else they hold. |
| `Noninterference.HiddenFrameContentIsInvisible` | extractor.go:58-89 | The same for frames, which also depend on `type` and on `item` unless the item is hidden. |
| `Noninterference.StatusMeaning` | extractor.go:26-54 | Over all bodies a status is one of four; "parsed" has messages and "empty" none; "unsupported" keeps messages only after a broken multipart body; "partial" lacks them only for a Responses input that is not a string, array or object. |
| `Noninterference.FrameStatusMeaning` | extractor.go:58-89 | The same for frames, where "unsupported" never has messages. |
| `Statuses.StatusExactly` | extractor.go:26-54 | The status of every request body, exactly: which of the four it is, from the protocol, the shape of the body and whether anything was taken. |
| `Statuses.FrameStatusExactly` | extractor.go:58-89 | The same for every frame. |
| `Protocols.ProtocolExactly` | extractor.go:363-379 | Which words of a path, in any case, decide its protocol, and in which order they count. |
| `Forms.FormIsTaken` | extractor.go:398-414 | A form gives exactly the values of the five prompt fields that are not blank, each at the position that counts those before it in the fixed order. |
| `Forms.MultipartIsTaken` | extractor.go:416-450 | A multipart body gives exactly the prompt parts without a file name that are not blank, cut at 1 MiB, before the first that cannot be read, in order. |
| `Confinement.HiddenExactlyWhen` | extractor.go:91-330 | For every protocol, request and captured text: some object on its path carries a role that is to be left out if and only if the request object does, or the text belongs to a Gemini item of role assistant or tool, or a part below the item carries such a role itself. |
| `Confinement.FrameHiddenExactlyWhen` | extractor.go:58-89 | The same for the texts of one WebSocket frame. |
| `Confinement.SomethingHiddenExactlyWhen` | extractor.go:91-330 | For every protocol and request: something under such a role is captured if and only if a text that is not blank stands at an allowed position that escapes the gates in one of the three ways. |
| `Confinement.SomethingHiddenInFrameExactlyWhen` | extractor.go:58-89 | The same for frames. |
| `Confinement.NothingHiddenIsCaptured` | extractor.go:91-330 | If roles stand only on the items of top-level arrays and on top-level objects, and none is assistant or tool in `contents`, no captured text lies under a role that is to be left out. |
| `Confinement.NothingHiddenIsCapturedFromFrames` | extractor.go:58-89 | The same for frames. |
| `ConfinementExamples.UngatedItemIsCaptured` | extractor.go:207-224 | A Gemini item of role assistant or tool is captured, for every text that is not blank. |
| `ConfinementExamples.NestedSystemIsCaptured` | extractor.go:298-304 | A part of role system inside a user's content is captured, for every text that is not blank. |
| `ConfinementExamples.RootRoleIsCaptured` | extractor.go:239-254 | A prompt in a request object that itself has role system is captured. |
| `CaptureSize.CapturedFits` | extractor.go:227-330 | The captured texts together are never longer than the strings of the request. |
| `CaptureSize.FrameCapturedFits` | extractor.go:58-89 | The same for one WebSocket frame. |
| `ExcludedRoles.ExcludedRolesAreCounted` | extractor.go:112-286 | For every protocol, request and role, the recorded count is the number of places in the request where that role was left out. |
| `Extractor.Extraction.AddUserMessage` | extractor.go:321-330 | Appends a message numbered by the current length unless the text is blank, and nothing else. |
| `Extractor.Extraction.IncrementExcluded` | extractor.go:332-337 | Adds one to the count of the role, and nothing else. |
| `Extractor.Extraction.ExtractContent` | extractor.go:288-315 | The recursive walk by mutation appends exactly the messages of the declarative content function, with the printed paths as sources. |
| `Extractor.Extraction.ExtractRoleMessage` | extractor.go:262-286 | The role gate by mutation has the effect of the declarative one: count, ignore or take. |
| `Extractor.Extraction.ExtractItems` | extractor.go:151-170 | The loop over a gated array has the combined effect of its elements in order. |
| `Extractor.Extraction.ExtractGeneric` | extractor.go:227-260 | The fallback has its specified effect on messages, counts and status. |
| `Extractor.Extraction.ExtractOpenAIChat` | extractor.go:112-134 | As specified, including the fallback when `messages` is no array and "empty" when it is an empty one. |
| `Extractor.Extraction.ExtractResponses` | extractor.go:136-176 | As specified for every type of `input`. |
| `Extractor.Extraction.ExtractAnthropic` | extractor.go:178-194 | As specified. |
| `Extractor.Extraction.ExtractGemini` | extractor.go:196-225 | As specified. |
| `Extractor.Extraction.ExtractJsonByProtocol` | extractor.go:91-110 | Dispatch on the protocol, with "unsupported" for a root that is no object. |
| `Extractor.Extraction.ExtractFormValues` | extractor.go:398-414 | Takes the prompt fields in their fixed order, all values of each. |
| `Extractor.Extraction.ExtractMultipart` | extractor.go:416-450 | Takes the prompt parts up to the first read that fails, each cut at 1 MiB, and fails exactly when the header, the boundary, a wanted part or the part sequence does. |
| `Extractor.ExtractRequest` | extractor.go:26-54 | For every body the finished extraction is the one its outcome describes: messages, counts, status, truncated text, hash of the full text. |
| `Extractor.ExtractWebSocketMessage` | extractor.go:58-89 | The same for one frame, with the protocol and model it records. |
| `Extractor.ApplyThen` | extractor.go:321-337 | Mutations compose: applying two outcomes one after the other is applying their concatenation, so message numbers and counts come out right. |
| `Text.BlankIsAllSpaces` | extractor.go:321-324 | A text is left out as blank if and only if it consists of Unicode white-space runes. |
| `Text.TrimDrops` | extractor.go:263-264 | Trimming takes away white-space runes only, at the two ends, and leaves none there. |
| `Text.RoleWord` | extractor.go:263-264 | A word of lower-case letters, such as a role name, passes through trimming and lower-casing unchanged. |
| `Text.SpaceRuneIsEncoded` | extractor.go:322 | The white space that trimming knows is exactly the UTF-8 encoding of the code points with the property White_Space. |
| `Text.ContainsIsHasWord` | extractor.go:363-379 | Looking for a word in a lower-cased text finds it exactly where it stands in any mixture of upper and lower case, U+0130 counting as i and U+212A as k. |
| `Utf8.TruncateUTF8` | model.go:88-103 | On any bytes and any limit the loop never slices out of range and returns a prefix within the limit that keeps about a third of it at least. |
| `Utf8.CutInRange` | model.go:93-102 | The index never runs ahead of the counted size although an invalid byte has width 1 and counts 3, so the cut stays within the limit. |
| `Utf8.SequenceIsEncoding` | model.go:94-95 | What the loop takes for a well-formed rune is exactly the encoding of a code point after section 3 of RFC 3629. |
| `Utf8.TruncateIsLongestAligned` | model.go:88-103 | On valid UTF-8 the result is the longest rune-aligned prefix that fits, is valid, and wastes fewer than four bytes when it cuts. |
| `Utf8.TruncateTwice` | model.go:88-103 | On valid UTF-8, truncating at n and then at m is truncating at the smaller of the two. |
| `Utf8.AlignedExactlyWhen` | model.go:88-103 | On arbitrary bytes, the cut is rune-aligned for every limit if and only if each invalid byte that the loop can end on has a rune boundary three bytes on. |
| `Utf8.AlignedAtExactlyWhen` | model.go:88-103 | On arbitrary bytes, for every limit: the cut is rune-aligned if and only if nothing is cut, no rune fits, or the last rune counted is well-formed or has a rune boundary three bytes on. |
| `Utf8.InvalidInputCanBeSplit` | model.go:98-100 | For every limit from 3 on, a text of letters, one invalid byte and two runes that is cut inside a rune. |
| `Model.Finalize` | model.go:58-86 | Text, hash, truncation flag and status of the finished extraction in terms of the joined non-blank texts; everything else unchanged. |
| `Model.FullPromptLength` | model.go:62-70 | The joined prompt is as long as its texts plus two bytes per separator. |
| `Model.PromptInOrder` | model.go:62-70 | The joined prompt has the text of every message at its place, in the order of the messages, with two line feeds between one and the next and nothing else. |
| `Model.PreviewOfStoredPrompt` | store.go:310-312 | The preview cut from the stored, already truncated text is the preview of the full prompt. |
| `BodyCapture.ReadBodyForCapture` | proxy.go:127-155 | For every chunking, read error and header combination, the bytes and final condition readable afterwards are the original ones if and only if the limit does not wrap around on a body that is read; captured are exactly the complete bodies within the limit whose headers let them through; at the greatest limit every body reads as empty afterwards. |
| `BodyCapture.EligibleExactly` | proxy.go:131-141 | Which headers let a body through: a content type that is empty or has json, form-urlencoded or multipart/form-data at some position in any case, and an encoding that is blank or spells identity. |
| `BodyCapture.WrapAroundLosesBody` | proxy.go:143-154 | At the greatest limit a body of one byte is gone afterwards and captured as empty. |
| `BodyCapture.ReadAllLimited` | proxy.go:143 | The limited read splits the stream: prefix and rest make up the original, with an error only at its true end. |
| `BodyCapture.ConsumersSeeReadable` | proxy.go:157-167 | A consumer reading the replaced body with any buffer sizes gets a prefix of its content, and all of it with the final condition once an end is reported. |
| `BodyCapture.ConsumersReachTheEnd` | proxy.go:157-167 | Enough reads of any sizes reach the end and deliver everything. |
| `HttpCapture.ServeHttp` | proxy.go:72-82 | What is forwarded reads as what was received, whatever is captured, except in the wrap-around case; the record offered is the one specified for a body seen in full, none otherwise, and in the wrap-around case that of an empty body. |
| `HttpCapture.CaptureHttp` | proxy.go:97-125 | A record is offered unless nothing was understood, with every field from the extraction. |
| `HttpCapture.OfferedIsSound` | proxy.go:103-123 | Offered records count their messages right and are marked "unsupported" only after a multipart body that broke off. |
| `HttpCapture.OfferedExactly` | proxy.go:72-105 | When a record is offered: wanted, let through by its headers, complete, within the limit, and understood or with something taken. |
| `HttpCapture.OfferedFields` | proxy.go:107-123 | Every field of an offered record, from the request and from what was extracted. |
| `HttpCapture.HiddenContentIsNotRecorded` | proxy.go:97-155 | End to end: requests whose bodies differ only in hidden content and other keys are offered alike, but for model name and role counts, if and only if their bodies lie on the same side of the capture limit or there is nothing to record. |
| `HttpCapture.LongHiddenContentDropsTheRecord` | proxy.go:148-151 | A prompt that is recorded alone is not recorded beside a system prompt that makes the body too long. |
| `HttpCapture.LimitExample` | proxy.go:148-151 | An instance of that at every limit, with one body on each side of it. |
| `FrameRelay.CopyClientFrames` | websocket.go:94-132 | Upstream receives an unmodified prefix of the client's frames, whenever reading or writing fails, and the records offered are exactly those of the recorded frames that were read, in order. |
| `FrameRelay.CaptureFrame` | websocket.go:100-127 | The two nested tests of the loop amount to "text frame, not unsupported". |
| `FrameRelay.RecordedExactly` | websocket.go:100-106 | A frame is worth a record exactly if it is a text frame and its status, said in full, is not "unsupported". |
| `FrameRelay.RecordFields` | websocket.go:107-123 | Every field of the record of a frame. |
| `FrameRelay.CopyServerFrames` | websocket.go:134-144 | The client receives an unmodified prefix of the upstream frames. |
| `FrameRelay.OfferedAreSound` | websocket.go:100-127 | Every offered record counts its messages right and none is marked "unsupported". |
| `FrameRelay.HiddenFrameContentIsNotRecorded` | websocket.go:100-127 | Frames that differ only in hidden content are recorded alike, up to model name and role counts. |
| `FrameRelay.RelayIsTransparent` | websocket.go:76-92 | In every interleaving of both copiers and the handler each peer has an unmodified prefix of what the other sent, at most one frame was looked at for capture and not passed on, the handler closes each connection at most once, and no copier blocks on reporting its error. |
| `FrameRelay.ClosedRelayEnds` | websocket.go:76-92 | Once both connections are closed, every run, also one that still reads frames that had arrived, passes nothing more on and ends within six steps, and a step is possible until both copiers have ended. |
| `RecordQueue.NeverPanics` | queue.go:22-45 | In every interleaving of any number of Enqueue and Close calls with the worker, also Enqueue after Close, no send reaches a closed channel and the channel is closed at most once. |
| `RecordQueue.ChannelStep` | queue.go:22-45 | The inductive invariant behind it: lock exclusion, the meaning of the flag, and that every sender's flag test still holds at its send. |
| `RecordQueue.NothingLost` | queue.go:18-61 | In every reachable state decided calls are accepted plus dropped, accepted records are those taken followed by the channel in FIFO order, the channel is within capacity, and each accepted record belongs to one successful call. |
| `RecordQueue.AllCallsCounted` | queue.go:22-52 | When all calls have returned, accepted plus dropped is the number of calls ever made. |
| `RecordQueue.RunIsAtomic` | queue.go:22-61 | Linearisability: every interleaved run has the effect on the queue of its operations performed one at a time on the sequential queue. |
| `RecordQueue.EachCallTakesEffectOnce` | queue.go:22-36 | In every run each Enqueue call is offered to the sequential queue exactly once if it has decided meanwhile, and not at all otherwise. |
| `RecordQueue.ResultsAreSequential` | queue.go:22-36 | What is offered is the call's own record, and the call returns what the sequential queue answers at its own place in the order. |
| `BlindQueue.QueueIsBlind` | queue.go:22-61 | The queue never looks at records: replacing every record of a run gives a run that ends in the state with its records replaced. |
| `RecordQueue.StepIsAtomic` | queue.go:22-61 | Each call takes effect at one of its own steps, and returns true exactly if the sequential queue accepts there. |
| `RecordQueue.WorkerCanMove` | queue.go:54-61 | After the channel is closed the worker always has a step until it has exited. |
| `RecordQueue.DrainIsBounded` | queue.go:54-61 | After the channel is closed, in every interleaving, the worker takes boundedly many steps and nothing more is accepted. |
| `RecordQueue.DrainedCompletely` | main.go:111-122 | A worker that exits without cancellation has settled every accepted record in order, exactly once, as stored, filtered or failed. |
| `RecordQueue.SharedQueue.Enqueue` | queue.go:22-36 | Accepts exactly when open and not full; appends or counts a drop, and nothing else. |
| `RecordQueue.SharedQueue.Close` | queue.go:38-45 | Closes, keeping the contents. |
| `Pipeline.EveryCallIsAccountedFor` | main.go:109-122 | Conservation from Enqueue to the table: after every concurrent run with an orderly shutdown each call was dropped and counted or its record settled exactly once; the table is the old one followed, in order, by the accepted records that pass the gates and have an attempt that commits; ids are unique, every new row is that of one accepted call, every record settled as stored has its row and no filtered one has. |
| `Pipeline.TableIsAlwaysSound` | queue.go:54-105 | In every reachable state, also after a shutdown that timed out, the settled records leave exactly the old table followed, in order, by those that pass the gates and have an attempt that commits, each new row that of one accepted call. |
| `Traceability.EveryRowIsTraced` | queue.go:54-105 | In every reachable state, every row that the worker added is the record of one request or frame handed over, and each of its messages carries its number and a source that names a place of that request, form or frame where exactly its text stands. |
| `Traceability.RecordIsTraced` | proxy.go:97-125 | The same for the record of every request, with a JSON, form or multipart body, and of every frame. |
| `Traceability.ExtractionIsHeld` | extractor.go:26-54 | Every message of a finished extraction is held in the payload it came from, at the place its source names. |
| `Confidentiality.HiddenContentNeverReachesTheTable` | queue.go:22-105 | Two whole concurrent runs with the same environment whose requests and frames differ only in hidden items and in keys outside the prompt, and whose bodies lie on the same side of the capture limit: the exchanged run is a run with the same drops, order and fates, the worker meets the same outcomes, and the tables are equal but for model names and role counts. |
| `Confidentiality.AlikeRecords` | proxy.go:97-125 | Requests and frames that differ only in hidden content, with bodies on the same side of the capture limit, are recorded alike. |
| `Persist.StoredAtMostOnce` | queue.go:54-105 | Over every run in which inserts may commit or not and report an error either way: the table is the old one followed, in order, by the records that pass both gates and have an attempt that commits; ids stay unique and counts right; a record reported stored is there, a filtered one is not. |
| `Persist.TableIsExact` | queue.go:54-105 | The exact table after every run, and for each record that its row is there if and only if it leaves one. |
| `Persist.LeftExactly` | queue.go:63-104 | What a record leaves: a row if the lookups are not cut short by a cancelled wait, the user of the identity it carries is known or need not be, there is a message or need not be, and an attempted insert takes effect; the identity is the first answer of the lookups when they are made and one answers, the record's own otherwise. |
| `Persist.IdentifiedCarries` | queue.go:64-81 | The record is given up before the gates exactly if a wait is cancelled before any lookup has answered; otherwise it goes on with exactly that identity. |
| `Persist.WriteOnce` | queue.go:88-104 | For a new id the three attempts leave exactly one row if and only if an attempt that is made commits, and report success if and only if the first commit is reported. |
| `Persist.PersistedOnce` | queue.go:63-105 | One record adds at most one row, which is the record with its identity filled in and passes the gates; success implies the row, filtering implies none. |
| `Persist.WriteAgain` | migrations/001_init.sql:2 | Once the row is there, the primary key makes every further attempt fail and add nothing. |
| `Persist.FailureMayBeStored` | queue.go:95-98 | An unclear commit is logged as a failure although the row is stored. |
| `Persist.Store.PersistOne` | queue.go:63-105 | The worker's routine, with its lookups, gates and retries, has the specified outcome and table. |
| `Persist.Store.Insert` | store.go:67-116 | Adds the row exactly when the statement commits and the id is new; reports success exactly when that is confirmed. |
| `Persist.Store.Run` | queue.go:54-61 | The loop settles each record on the table its predecessors left. |
| `Schema.ContactExactly` | store.go:356-382 | A call contacts the database if and only if none has, or the last contact failed, in its ping or its statements, at least five seconds ago; otherwise it answers as the last contact did. |
| `Schema.GateIsLastContact` | store.go:362-381 | In every run the three fields are determined by the last contact. |
| `Schema.ContactsAreSpaced` | store.go:365-377 | After a failed contact no contact starts within five seconds. |
| `Schema.SuccessIsFinal` | store.go:378-381 | After one success no call contacts the database for the schema again, and all succeed. |
| `Schema.RetriesShareOneContact` | queue.go:88-104 | All calls that start in the window of a failed contact, such as one record's retries, get that error and contact nothing. |
| `GatedInsert.OutageCostsOneContact` | queue.go:88-104 | A record whose first attempt contacts the database for the schema and fails, and whose other attempts start within five seconds, makes exactly one contact, changes no row, and ends as failed or, if a wait is cancelled, abandoned. |
| `GatedInsert.GateOnlyWithholds` | store.go:67-70 | The retries behind the schema gate do what the worker's retries do when exactly the inserts that the gate refuses are not sent. |
| `GatedInsert.GatedStore.Insert` | store.go:67-116 | Insert asks the gate first, sends nothing when it answers with an error, and otherwise behaves as the table demands. |
| `GatedInsert.GatedStore.WriteWithRetries` | queue.go:88-104 | The loop of three attempts has the specified table, outcome, gate and number of contacts. |
| `Schema.SchemaGate.EnsureSchema` | store.go:356-382 | The method takes the specified transition, answer and decision to contact. |
| `Sessions.AnswersByHistory` | auth.go:123-201 | In every run under one clock with fresh tokens, in which any change may take effect and still be reported as an error, each call gets the answer that history demands; a token validates if and only if it was created, was not deleted since and has not expired, its expiry being the given time to live, or twelve hours, after its creation. |
| `Sessions.TableAgrees` | auth.go:123-201 | The table holds nothing that history does not, and everything that has not expired. |
| `Sessions.SweepsAreInvisible` | auth.go:193-201 | Removing all sweeps from a run changes no answer. |
| `Sessions.SameWithoutSweeps` | auth.go:193-201 | Two runs that differ only in sweeps answer alike. |
| `Sessions.SweepsShowWithoutFreshness` | auth.go:134-149 | An example in which a token drawn twice makes a sweep visible. |
| `Sessions.CreateLeaves` | auth.go:134-149 | The creation loop leaves a session for a token exactly if one of its rounds committed it, also when the caller was told it failed. |
| `Sessions.SessionStore.CreateAdminSession` | auth.go:123-151 | The loop over three rounds has the specified effect and answer. |
| `Sessions.SessionStore.ValidateAdminSession` | auth.go:153-177 | Answers from the table and the clock as specified, changing nothing. |
| `Sessions.SessionStore.DeleteAdminSession` | auth.go:179-191 | Removes the row of the trimmed token whenever the statement takes effect, also when that is reported as an error. |
| `Sessions.SessionStore.DeleteExpiredAdminSessions` | auth.go:193-201 | Removes exactly the rows that have expired whenever the statement takes effect, also when that is reported as an error. |
| `Bootstrap.PrintedCredentialsAreValid` | main.go:128-147 | For any number of instances and arbitrary failures, at most one instance per username ever prints credentials, and from then on, in every continuation, the stored hash is that of the printed password. |
| `Bootstrap.PrintedExactlyWhenTold` | main.go:133-139 | In every run of any number of instances, an instance prints if and only if the first statement for its trimmed name that took effect was its own and was answered; the account exists if and only if some statement took effect. |
| `Bootstrap.UnclearInsertLosesCredentials` | main.go:128-147 | After an unclear insert the retry finds the account and nothing is ever printed. |
| `Bootstrap.InvStep` | main.go:128-147 | The inductive invariant: each account is owned by the instance that inserted it, and printing means having inserted it and been told. |
| `Bootstrap.AdminTable.EnsureAdminHash` | auth.go:68-92 | Inserts exactly when the name is free and the statement takes effect; `created` exactly when that is also answered. |
| `Bootstrap.AdminTable.RunAdminBootstrap` | main.go:128-147 | Alone with the table, prints if and only if the account was missing and the first statement to take effect was answered. |
| `QueryCompiler.Compile` | store.go:191-233 | For every filter and row, the WHERE clause under its arguments, in three-valued logic, selects exactly the rows that the filter means; every placeholder has an argument and every argument a placeholder; LIMIT and OFFSET are bound to the last two, which no clause uses. |
| `QueryCompiler.Builder.Add` | store.go:193-196 | One clause with one argument narrows the meaning by exactly that comparison. |
| `QueryCompiler.Builder.AddSearch` | store.go:203-210 | Three tests share one placeholder and mean a match in any of the three columns. |
| `QueryCompiler.WhereIgnoresMoreArgs` | store.go:191-233 | Appending arguments does not change the meaning of the clauses before them, so COUNT and the page query select the same rows. |
| `QueryCompiler.AddedMeaning` | store.go:193-196 | A clause added with its own argument is conjoined to the meaning so far and keeps the numbering. |
| `Paging.PagesCoverExactly` | store.go:182-250 | On a fixed table, for every page size from 1 to 200 and any number of pages that is enough for the total, the pages, each from its own query, concatenate to every matching record once in the unique order, if and only if the last offset or the total is at most 1,000,000; otherwise some row repeats. |
| `Paging.OrderIsUnique` | store.go:230-232 | ORDER BY received_at, id has one possible result on rows with distinct ids. |
| `Paging.ClampedPagesRepeat` | store.go:188-190 | Beyond the bound the clamped offset shows a row a second time. |
| `IdentityDirectory.LookupsSeeOneRefresh` | identity.go:88-152 | In every interleaving of lookups with complete and broken refreshes, a lookup answers as a scan of the rows of the last completed refresh, which are read off the steps. |
| `IdentityDirectory.LookupAnswersFromLastRow` | identity.go:115-152 | Field by field, a lookup answers with the user, key and names of the last row with that key in the last completed refresh. |
| `IdentityDirectory.LookupAnswersUnknown` | identity.go:140-151 | A blank key, and a key without a row, are answered with nobody. |
| `IdentityDirectory.LookupIsScan` | identity.go:114-152 | With injective fingerprints the index answers every key as the last row with that key, or unknown. |
| `IdentityDirectory.InvRun` | identity.go:88-138 | Every run keeps each index under way equal to that of the rows read so far, and the current one to that of the rows swapped in last. |
| `IdentityDirectory.RunRemembers` | identity.go:88-138 | After every run those rows are, by the steps alone, the ones with which the refresh that was swapped in last began. |
| `IdentityDirectory.IdentityResolver.Refresh` | identity.go:88-138 | Installs the complete index or, on any failure, changes nothing. |
| `IdentityDirectory.IdentityResolver.Lookup` | identity.go:140-152 | Reads the current index. |

## Left out

- Admin pages and handlers (admin.go, web/): HTTP plumbing with branch-level claims only.
- Configuration loading (config.go): flat validation. The queue size is at least 1 there (config.go:78), so
  the rendezvous of an unbuffered channel is not modelled.
- SHA-256, HMAC, bcrypt, random tokens and UUIDs; JSON, MIME, multipart and form decoding; ILIKE: library or
  database code, kept as parameters.
- PostgreSQL beyond tables with primary keys: isolation levels, connection pooling, column widths
  (migrations/001_init.sql:2-27), and the `LEFT(prompt_text, 512)` that the list query applies (store.go:227).
- The reverse proxy, TLS, the WebSocket handshake, headers, `shouldCapture`, `correlationID`, `modelFromPath` and
  `extractAPIKey`: simple tests or network library behaviour; their results are parameters.
- Get, UpdateReview, AuthenticateAdmin and ResolveRequestID: one SQL statement each; the answers of ResolveRequestID are
  parameters of the worker.
- Retention (store.go:118): rows deleted between two insert attempts of one record are not modelled.
- Closing a request body, and the deferred closes of the WebSocket handler besides `closeBoth`.
- Liveness under a scheduler: the drain is bounded and never stuck, but fairness of locks and real timers are
  not modelled.
- RecordQueue.SharedQueue.Enqueue: the drop counter is unbounded; the wrap-around of its 64 bits is not modelled.
- Text.Lower: does not lower-case characters beyond ASCII other than the two whose lower case is ASCII, which no
  comparison with the program's literals can observe.
- Extractor.Extraction.ExtractContent: the stack depth of the recursion is not modelled; it terminates on the size of the JSON value.
