# youtube_agent core, modelled in Dafny

youtube_agent catalogues YouTube videos, playlists and web pages. A Flask
server (`app.py`) accepts batches of URLs or an uploaded file. It runs the
enricher script (`enricher.py`) once per item in a background thread, and
relays the script's output to the browser as a server-sent event stream.
The enricher classifies its URL and gathers the metadata. It fetches a
transcript, asks a generative model for a summary, tags and a category,
and stores the record.

This project models the decision logic of both files as pure functions
over immutable data, and proves what that logic promises.

- **Outcomes** holds `Option` and `Result` with Python's exception kinds,
  plus the state of a file.
- **Text** holds the string operations the code relies on, with their
  contracts: `str.strip` (whitespace or a character set), `find`/`rfind`,
  `join`, text-mode line iteration (breaks at '\n' or '\r'), `str(int)`
  and `os.path.basename`.
- **Json** holds the tagged value type for what `json.loads` and yt-dlp
  return. It also holds Python truthiness, `dict.get`, iteration and
  `str()`.
- **Enrichment** is `get_enriched_data_from_gemini`. It covers the choice
  of context, the cleaning of code fences, the greedy `{...}` candidate,
  tag normalisation, the defaults and the "Error" triple.
- **Transcript** is `get_video_transcript`:
  - the primary stage that holds no call;
  - the `en`-then-`hi` subtitle probe;
  - the `>([^<]+)</p>` extraction, assembled into one of the three result
    shapes.
- **Resolver** covers URL classification in `main`, thumbnail preference
  and defaults in `process_video`, `process_webpage`, and the playlist
  loop's per-entry policy.
- **Batch** is `run_enrichment_process`, written as a program of actions
  on the server state (the lock flag and the log queue). Each child
  process is given as the lines it prints and how it ends.
- **LogStream** is the `/stream-logs` consumer. It also holds the browser's
  reading of the event stream, following section 9.2.6 ("Interpreting an
  event stream") of the WHATWG HTML Living Standard.
- **Routes** covers `start_batch`, `upload_file` and `get_status` as steps
  on the server state.
- **BatchLinks** covers `load_batch_links`, `add_batch_links` and the
  processed status of `get_batch_links`.

Foreign calls appear as parameters. These are the model call and
`json.loads` (`Enrichment.Services`), yt-dlp's subtitle download
(`Transcript.SubtitleFetch`) and the fetched page (`Resolver.Page`). They
also include the outcome of processing one playlist entry (`attempt`), the
children's output (`spawn`), and whether a file can be opened.

## Behaviour of the code worth knowing

- `run_enrichment_process` does not pause between items. Only the
  enricher's playlist loop pauses between entries (`Resolver.PlaylistLoop`).
- The runner never inspects a child's exit status, so a failing child does
  not stop the batch (`Batch.ExitStatusIgnored`). An exception while
  starting a child or reading its output abandons the remaining items
  (`Batch.SpawnedStopsAt`, `Batch.LaterItemsAbandoned`).
- Only `start_batch` drains the log queue before a run. `upload_file` does
  not, so a sentinel left unread by an earlier run ends the next stream
  early (`Routes.UploadKeepsStaleSentinel`).
- The handlers only check the lock. The run thread sets it later, so two
  starts can both be accepted (`Routes.GuardIsNotAtomic`).
- The primary transcript stage is commented out. When that stage returns
  normally, `get_video_transcript` falls off its end and returns None
  (`Transcript.GetVideoTranscript`).
- When no subtitle file is produced, the fallback returns "". It gives
  the description-only text only when a file exists but yields no
  transcript (`Transcript.NoFileGivesEmpty`, `Transcript.FallbackShapes`).
- The brace pattern `\{.*\}` is greedy: it runs from the first '{' to the
  last '}' (`Enrichment.Candidate`).

## Model

| member | source | states |
|---|---|---|
| Enrichment.EmptyContextShortCircuits | enricher.py:244-250 | With neither a truthy transcript nor a truthy description, the result is ("Not enough content.", "", "Uncategorized"), and it is the same whatever the model services would do. |
| Enrichment.TranscriptIsPreferred | enricher.py:244-269 | A truthy transcript is the context. The description then does not affect the result, and a failed model call on the transcript's prompt gives the Error triple. |
| Enrichment.FailureGivesErrorTriple | enricher.py:286-310 | When there is context, three failures all give exactly ("Error", "Error", "Error"): the model call raising, a candidate that does not decode, and a decoded value that is not a dictionary. |
| Enrichment.MissingFieldsDefault | enricher.py:292-301 | A missing summary, tags or category key gives "No summary provided.", "" and "Uncategorized" respectively. A present summary or category is the dictionary's own value. |
| Enrichment.TagsListAndStringAgree | enricher.py:293-300 | A list of stripped strings and the same strings joined with ", " both normalise to that joined text. |
| Enrichment.Candidate | enricher.py:279-284 | Without a '{' before a '}', the candidate is the whole text. Otherwise it runs from a '{' with none before it to a '}' with none after it. |
| Enrichment.CandidateOfEmbeddedObject | enricher.py:280-282 | An object with no '{' before it and no '}' after it is exactly the candidate, whatever text surrounds it. |
| Enrichment.FenceOpens | enricher.py:274-275 | A fenced block is recognised as fenced. Stripping backticks leaves the hint line, the object and the closing newline. |
| Enrichment.FenceInsideCleans | enricher.py:275-277 | Inside the fence, the whitespace goes, and so does a leading `json` hint line in any letter case, which leaves the object. |
| Enrichment.FencedReplyCleans | enricher.py:272-277 | A reply padded with whitespace and fenced with three backticks, with or without a `json` hint, cleans to the bare object. |
| Enrichment.BareObjectIsCandidate | enricher.py:272-284 | A bare object is left unchanged by cleaning and is its own candidate. |
| Enrichment.FencedReplyParsesLikeBare | enricher.py:272-287 | A fenced reply gives the same candidate, and so the same result, as the bare object. |
| Transcript.Spans | enricher.py:202 | Every extracted span is non-empty and holds no '<'. |
| Transcript.SpansParagraph | enricher.py:202 | `>text</p>` with a non-empty text free of '<' is one match, and scanning resumes after `</p>`. |
| Transcript.SpansOfDocument | enricher.py:202 | A subtitle document of paragraphs `<p ...>text</p>` yields exactly the paragraph texts, in order. |
| Transcript.TranscriptIsOneLine | enricher.py:203-205 | The assembled transcript holds no newline. |
| Transcript.TranscriptEmptyIff | enricher.py:203-207 | The transcript is empty exactly when there is no span, or a single span that strips to nothing. |
| Transcript.TranscriptOfCleanSpans | enricher.py:203-205 | Spans that are already stripped and single-line enter unchanged, joined with single spaces. |
| Transcript.GetVideoTranscript | enricher.py:125-163 | The result is None exactly when the primary stage returns normally, since the function then falls off its end. Otherwise it is the fallback's string for the info's description (an empty string when there is none) and the subtitle fetch. |
| Transcript.EnglishIsProbedFirst | enricher.py:181-186 | When the `en` file exists, the `hi` file plays no part. |
| Transcript.HindiStandsIn | enricher.py:182-186 | Without an `en` file, the `hi` file is read exactly as an `en` file would be. |
| Transcript.NoFileGivesEmpty | enricher.py:188-194 | No subtitle file, an unreadable one, or a download that raises gives "", even when there is a description. |
| Transcript.FallbackShapes | enricher.py:207-225 | A non-empty transcript gives the description block, a newline and the transcript. An empty transcript gives the "No transcript available." form when there is a truthy description, and "" otherwise. |
| Transcript.TranscriptOfDocument | enricher.py:202-205 | A document of clean, single-line paragraph texts gives those texts joined with spaces, which is non-empty. |
| Transcript.FallbackOfDocument | enricher.py:196-213 | Such a document comes back as that transcript after the description block. |
| Resolver.Classify | enricher.py:410-413 | The URL is a webpage iff it names neither YouTube host. It is a playlist iff it names a host, holds `playlist?list=` and does not hold `watch?v=`. |
| Resolver.WatchUrlWithListIsSingleVideo | enricher.py:413 | A YouTube URL holding `watch?v=` is a single video, even when it also holds a playlist query. |
| Resolver.SingleVideoStaysSingle | enricher.py:410-413 | Appending anything to a single-video watch URL keeps it a single video. |
| Resolver.InOp | enricher.py:324 | `in` on a string is a substring test. Only values that are not a string, list or dictionary raise. |
| Resolver.Subscript | enricher.py:324 | `t["url"]` gives the dictionary's value, raises KeyError when the key is missing, and raises TypeError on a non-dictionary. |
| Resolver.FirstMatchingFinds | enricher.py:323-329 | Over well-formed entries, the scan yields the url of the first entry whose id holds the marker. |
| Resolver.FirstMatchingMisses | enricher.py:323-329 | Over well-formed entries where no id holds the marker, the scan yields None. |
| Resolver.FirstMatchingTotal | enricher.py:323-329 | Over well-formed entries, the scan never raises. |
| Resolver.FirstMatchingRaisesOnNonDict | enricher.py:324 | A scan that reaches an entry that is not a dictionary raises on `.get`. |
| Resolver.PickFromList | enricher.py:321-330 | With a non-empty thumbnail list, both scans run. The maxres url wins, then the hq url, then the last entry's url. |
| Resolver.GivenThumbnailWins | enricher.py:319-320 | A truthy `thumbnail` field is taken as it is. |
| Resolver.MaxresIsPreferred | enricher.py:323-330 | The first `maxresdefault` entry's url is chosen when it is truthy. |
| Resolver.HqIsNext | enricher.py:323-330 | Without a `maxresdefault` entry, the first `hqdefault` entry's truthy url is chosen. |
| Resolver.LastEntryOtherwise | enricher.py:330 | With neither kind of entry, the last entry's url is chosen. |
| Resolver.ThumbnailFromId | enricher.py:331-332 | With no usable thumbnail fields, the URL is built from the video id. |
| Resolver.ProcessVideo | enricher.py:313-352 | The record raises exactly when the thumbnail choice raises. Otherwise it is a "video" record carrying the chosen thumbnail, with "No Title", "", "Unknown Uploader" and 0 for missing fields. |
| Resolver.SilentPrimaryUsesDescription | enricher.py:337-340 | When the transcript stage returns None, a video without a truthy description gets the "not enough content" fields. |
| Resolver.ProcessWebpage | enricher.py:355-392 | There is a record exactly when the fetch and parse succeed. It is a "webpage" record with the URL, null thumbnail, uploader and duration, and the page title or "No Title Found". |
| Resolver.EmptyPageStillAsksModel | enricher.py:373-377 | A page without text still asks the model, because the fixed description is the context. |
| Resolver.PlaylistLoop | enricher.py:452-474 | With a handler that cannot raise, every entry gets one step, and every step but the first pauses. |
| Resolver.PlaylistLoopAsWritten | enricher.py:452-474 | The loop as written takes at most one step per entry, and one for every entry when it completes. Every step but the first is preceded by a pause, including the step of the entry that crashes the loop. |
| Resolver.PlaylistLoopIsPerEntry | enricher.py:459-474 | Each entry's outcome depends on that entry alone, so one entry's error neither stops the loop nor changes the others. |
| Resolver.PacingAndSkipping | enricher.py:452-462 | The pause comes before every entry but the first, skipped ones included. A dictionary entry is skipped iff its url is missing or falsy. |
| Resolver.AsWrittenAgreesOnDicts | enricher.py:459-474 | Over dictionary entries, the loop as written equals the corrected loop and completes. |
| Resolver.NonDictEntryStopsLoop | enricher.py:469-474 | A None entry makes the handler raise again. This ends the loop as written before the next video, while the corrected loop handles both entries. |
| Text.StripByIsInfix | app.py:108 | `strip` returns a contiguous piece of the string, and only dropped characters precede and follow it. |
| Text.BasenameIsLastComponent | app.py:91 | The base name holds no '/', ends the path, and is the whole path or follows a '/'. |
| Batch.ArgFlag | app.py:95 | The flag is `--url` iff the item starts with "http", and `--file` otherwise. |
| Batch.ForwardQueuesStrippedLines | app.py:107-108 | Each line the child prints is queued once, stripped, in arrival order. |
| Batch.ForwardSpawnsNothing | app.py:107-108 | Forwarding output starts no child. |
| Batch.RunReleasesLock | app.py:113-116 | The corrected run (`Batch.Run`) ends with the lock released. The log gains the body's messages and then the sentinel. The run as written does the same when the items have a length (`Batch.AsWrittenAgreesWhenSized`). |
| Batch.RunHoldsLock | app.py:81-116 | The lock is held after every step of a run but the last. |
| Batch.RunMessageOrder | app.py:84 | The sentinel is the last message. When the items have a length, the start line naming their count is the first. |
| Batch.LaunchMessages | app.py:90-112 | One item queues its header, then its child's forwarded lines, then the FATAL line if the child raised. |
| Batch.StepSpawns | app.py:89-106 | A string item makes exactly one start attempt: the `Popen` call for that item with its `--url`/`--file` flag. Whether the start succeeds is up to the child's outcome. Any other value makes none. |
| Batch.SpawnedInOrder | app.py:89-110 | The start attempts (`Popen` calls, each with its item's flag) are for a run of consecutive string items from the first, in submission order. |
| Batch.AllItemsSpawned | app.py:89-110 | When every item is a string and every child exits, every item gets its start attempt, with its flag, in submission order. |
| Batch.SentinelExactlyOnce | app.py:113-114 | When no child prints the sentinel, the corrected run (`Batch.Run`) queues it exactly once, as its last message. |
| Batch.SpawnedStopsAt | app.py:89-112 | When item `j` stops the loop, attempts are made for the items before `j`, and for `j` only when it is a string. No item after `j` is attempted. |
| Batch.LaterItemsAbandoned | app.py:89-112 | When item `j` stops the loop, the loop's actions are the same whatever items follow `j`. |
| Batch.StopEndsWithFatal | app.py:89-112 | When an item stops the loop, the loop's last message is a FATAL line. |
| Batch.FatalBeforeSentinel | app.py:109-114 | A run whose items have no length, or whose loop stops early, queues a FATAL line right before the sentinel. |
| Batch.ExitStatusIgnored | app.py:110 | A run is the same when every child that exited is taken to have exited with status 0. |
| Batch.AsWrittenAgreesWhenSized | app.py:84-85 | When the items have a length, the runner as written is the corrected runner. |
| Batch.LockLeaksOnUnsizedItems | app.py:81-85 | On an integer, the run as written leaves the lock held and queues nothing. The corrected run releases the lock after a FATAL line and the sentinel. |
| LogStream.Taken | app.py:128-135 | The consumer takes a prefix of the queue. It takes everything up to and including the first sentinel when there is one, and all of the queue otherwise. |
| LogStream.StaleSentinelEndsStream | app.py:130-133 | A sentinel already waiting ends the stream before anything queued after it. |
| LogStream.WholeRunReachesConsumer | app.py:126-135 | From an empty queue, the consumer takes every message of a run whose children never print the sentinel. |
| LogStream.InterpretFrame | app.py:131 | A message framed line by line reads back as exactly that message. |
| LogStream.InterpretFrames | app.py:128-133 | A stream of such frames reads back as its messages, in order. |
| LogStream.ResponseDeliversTaken | app.py:126-137 | With line-by-line framing, the browser reads exactly the messages the consumer took, in queue order. |
| LogStream.OneLineFrame | app.py:131 | For a message without line breaks, the framing as written is the line-by-line framing. |
| LogStream.FramingsAgreeOnOneLiners | app.py:131 | On messages without line breaks, both framings give the same stream. |
| LogStream.LeadingBreakLosesText | app.py:131 | A message that starts with a newline and continues with '-' reads back, as written, as one empty message. |
| LogStream.HeaderTextIsLost | app.py:90-92 | As written, every item header reaches the browser as an empty message. Framed line by line, it arrives whole. |
| Routes.StartBatch | app.py:224-237 | The reply is 409 iff the lock is held, and the state is then unchanged. Otherwise the queue is drained. The request raises iff the body is not an object. A run starts with 202 iff `urls` is truthy, and it gets exactly that value. A falsy `urls` gets 400 "No URLs provided", and a 202 reply always comes with a run. |
| Routes.JoinPath | app.py:217 | An absolute name replaces the folder. Otherwise the path starts with the folder and ends with the name. |
| Routes.UploadFile | app.py:206-221 | The upload never changes the state. The reply is 409 iff the lock is held. Without a file part the reply is 400 "No file part", and with an empty filename it is 400 "No selected file". A run starts iff there is a non-empty filename, on the one path under the upload folder, and exactly then the reply is 202. |
| Routes.StatusFollowsRun | app.py:140-142 | For the corrected run (`Batch.Run`), the status reports running from the run's first step to its last, and finished afterwards. |
| Routes.StatusAfterRunAsWritten | app.py:140-142 | After the run as written, the status reads finished exactly when the items have a length. Otherwise it reads running for good. |
| Routes.StartedBatchStreamsWhole | app.py:228-236 | When `start_batch` starts the corrected run (`Batch.Run`), the run leaves the lock released, and the consumer takes all of its messages. |
| Routes.StartedBatchAsWritten | app.py:228-236 | When `start_batch` starts the run as written on items with a length, the run leaves the lock released and the consumer takes all of its messages. On items without a length, the lock stays held and nothing is queued. |
| Routes.DrainedRunStreamsWhole | app.py:126-135 | From an empty queue, a run whose children never print the sentinel leaves the lock released and every message queued, and the consumer takes all of them. |
| Routes.GuardIsNotAtomic | app.py:226-236 | Two start requests served before the first run takes the lock are both accepted. |
| Routes.LeakedLockBlocksStarts | app.py:226-227 | After a run as written dies before its `try`, the status reports running and every start is refused with 409. |
| Routes.UploadRunsAsFile | app.py:216-220 | An uploaded file is always run with the `--file` flag. |
| Routes.RunBehindStaleSentinel | app.py:130-133 | On a queue that already holds a sentinel, the consumer sees nothing of a new run. |
| Routes.UploadKeepsStaleSentinel | app.py:207-220 | The upload does not drain the queue, so a leftover sentinel ends the new stream before any message of the new run. |
| BatchLinks.Kept | app.py:69 | Kept pieces are non-empty, and there are no more of them than lines. |
| BatchLinks.KeptAppend | app.py:69 | Filtering distributes over concatenation of lines. |
| BatchLinks.LoadBatchLinks | app.py:64-72 | Every loaded link is non-empty, already stripped and free of line breaks. A missing or unreadable file gives no links. |
| BatchLinks.LoadOfLinks | app.py:64-72 | A file holding stripped links one per line loads as exactly those links. |
| BatchLinks.AddBatchLinks | app.py:188-203 | Each status, 400, 200 or raised, holds iff its condition does. Only a 200 appends the stripped text, after a newline iff the file was non-empty. |
| BatchLinks.AddThenLoad | app.py:191-198 | Appending text gives 200, or 400 when the text is empty. Loading then gives the old links followed by the links of the stripped text. |
| BatchLinks.FailedAddKeepsLinks | app.py:192-203 | A rejected append leaves the loaded links as they were. |
| BatchLinks.AmpPrefix | app.py:176 | The prefix holds no '&'. It is the whole URL, or the part before its first '&'. |
| BatchLinks.LinkStatuses | app.py:174-183 | Each link keeps its place. It is processed iff its '&'-prefix equals that of some stored URL. |
| BatchLinks.StatusIgnoresExtraParameters | app.py:176-181 | Parameters after the first '&' do not change a link's status. |
| Enrichment.Enrich | enricher.py:236-310 | No contract of its own. Stated by `Enrichment.EmptyContextShortCircuits`, `Enrichment.TranscriptIsPreferred` and `Enrichment.FailureGivesErrorTriple`. |
| Enrichment.CleanReply | enricher.py:272-277 | No contract of its own. Stated by `Enrichment.FenceOpens`, `Enrichment.FenceInsideCleans`, `Enrichment.FencedReplyCleans` and `Enrichment.BareObjectIsCandidate`. |
| Enrichment.ParseReply | enricher.py:279-310 | No contract of its own. Stated by `Enrichment.FailureGivesErrorTriple`, `Enrichment.MissingFieldsDefault` and `Enrichment.FencedReplyParsesLikeBare`. |
| Enrichment.TagsText | enricher.py:293-300 | No contract of its own. Stated by `Enrichment.TagsListAndStringAgree` and `Enrichment.MissingFieldsDefault`. |
| Transcript.Fallback | enricher.py:166-233 | No contract of its own. Stated by `Transcript.EnglishIsProbedFirst`, `Transcript.HindiStandsIn`, `Transcript.NoFileGivesEmpty`, `Transcript.FallbackShapes` and `Transcript.FallbackOfDocument`. |
| Resolver.PickThumbnail | enricher.py:319-332 | No contract of its own. Stated by `Resolver.PickFromList`, `Resolver.GivenThumbnailWins`, `Resolver.MaxresIsPreferred`, `Resolver.HqIsNext`, `Resolver.LastEntryOtherwise` and `Resolver.ThumbnailFromId`. |
| Resolver.FirstMatching | enricher.py:323-329 | No contract of its own. Stated by `Resolver.FirstMatchingFinds`, `Resolver.FirstMatchingMisses`, `Resolver.FirstMatchingTotal` and `Resolver.FirstMatchingRaisesOnNonDict`. |
| Resolver.EntryOutcomeOf | enricher.py:459-474 | No contract of its own. Stated by `Resolver.PacingAndSkipping` and `Resolver.PlaylistLoopIsPerEntry`. |
| Batch.Run | app.py:76-116 | No contract of its own. Stated by `Batch.RunReleasesLock`, `Batch.RunHoldsLock`, `Batch.RunMessageOrder`, `Batch.SentinelExactlyOnce` and `Batch.FatalBeforeSentinel`. |
| Batch.RunAsWritten | app.py:81-85 | No contract of its own. Stated by `Batch.AsWrittenAgreesWhenSized` and `Batch.LockLeaksOnUnsizedItems`. |
| Batch.Launch | app.py:90-112 | Stated by `Batch.LaunchMessages`, together with `Batch.StepSpawns`. Its own contract says only that it leaves the lock alone. |
| Batch.ItemActions | app.py:89-112 | Stated by `Batch.SpawnedInOrder`, `Batch.SpawnedStopsAt`, `Batch.LaterItemsAbandoned`, `Batch.StopEndsWithFatal` and `Batch.AllItemsSpawned`. Its own contract says only that it leaves the lock alone. |
| LogStream.FrameAsWritten | app.py:131 | No contract of its own. Stated by `LogStream.OneLineFrame`, `LogStream.LeadingBreakLosesText` and `LogStream.HeaderTextIsLost`. |
| LogStream.Frame | app.py:131 | No contract of its own. This is the line-by-line framing, stated by `LogStream.InterpretFrame` and `LogStream.InterpretFrames`. |
| LogStream.Interpret | app.py:125-137 | No contract of its own. It is the browser's reading of the stream under section 9.2.6 of the WHATWG HTML Living Standard, and it is stated by `LogStream.InterpretFrames` and `LogStream.LeadingBreakLosesText`. |
| Routes.GetStatus | app.py:140-142 | No contract of its own. Stated by `Routes.StatusFollowsRun`, `Routes.StatusAfterRunAsWritten` and `Routes.LeakedLockBlocksStarts`. |

## Left out

- Threads and the race between the guard in `start_batch`/`upload_file` and the lock file written by the run thread. Handlers and runs are separate sequential steps. `Routes.GuardIsNotAtomic` states the sequential consequence.
- Subprocesses and the enricher's argument parsing. A child is given as its printed lines and how it ends, and the model does not claim the child run succeeds. `main` takes a positional `url`, while the runner passes `--url`/`--file`.
- The primary transcript API. Its code is commented out, so whether that stage raises is a parameter.
- yt-dlp, the generative-model client, `requests`, BeautifulSoup and `json.loads`. They are parameters or given results.
- SQL and sqlite: the database set-up, `save_video_to_db`, the library, update and delete endpoints, and the playlist record in `main`. The stored URLs for the processed status are an input.
- `time.sleep`/`random.uniform` pacing, recorded only as whether a pause happens; the 60-second queue timeout, recorded only as the consumer stopping at the end of what is queued; `print` logging.
- Floating-point values in decoded JSON, and the escaping details of `repr` for strings.
- `secure_filename` is an input. `file.save` failures, `request.get_json` rejecting a body, and a lock file that cannot be written are not modelled.
- The `id` and `retry` fields and the byte-order mark in the event-stream interpretation. Event streams here never contain them.
- Resolver.PlaylistLoopAsWritten: its contract states the number of steps and the pauses, not their outcomes. What it does is stated by `Resolver.AsWrittenAgreesOnDicts` and `Resolver.NonDictEntryStopsLoop`.
- `os.path.basename` and `os.path.join` are modelled for POSIX paths only (`Text.Basename`, `Routes.JoinPath`). Windows separators and drive letters are not handled.
- JSON objects are pairs whose keys are assumed to be distinct. `Json.Get` returns the first pair with the key, while `json.loads` keeps the last of duplicate keys. Replies with duplicate keys are therefore not modelled faithfully.
- BatchLinks.Kept: its contract states only non-emptiness and length. Its content is stated through `BatchLinks.LoadOfLinks` and `BatchLinks.KeptAppend`.

## Findings

| source | as written | input that shows it | evidently intended | confidence | as-written member | corrected member |
|---|---|---|---|---|---|---|
| enricher.py:469-474 | the `except` handler calls `entry.get('url')`, which raises again for a playlist entry that is not a dictionary, ending the script | entries `[None, {"url": "u"}]` (yt-dlp gives None for an unavailable video) | log the error and continue with the next entry | not executed | Resolver.PlaylistLoopAsWritten, Resolver.NonDictEntryStopsLoop | Resolver.PlaylistLoop, Resolver.PlaylistLoopIsPerEntry |
| app.py:84 | the start line, and its `len` call, come before the `try`, so a `urls` value without a length raises before the `finally` clause | `{"urls": 5}` to `/api/batch/start` | queue a FATAL line and the sentinel, then release the lock | not executed | Batch.RunAsWritten, Batch.LockLeaksOnUnsizedItems | Batch.Run, Batch.FatalBeforeSentinel |
| app.py:131 | each message is framed as one `data:` line, but item headers start with a newline, so the event-stream parser sees an empty data line followed by a line it ignores | any item header, e.g. "\n--- Processing item 1 of 1: a ---" | the browser receives the header text | not executed | LogStream.FrameAsWritten, LogStream.HeaderTextIsLost | LogStream.Frame, LogStream.InterpretFrames |
