# hello-go: a verified model of the download core

hello-go is a small Go service. It turns a YouTube link or video identifier into an
audio file by running the external `youtube-dl` tool. The file is served over HTTP or
sent back through a Telegram bot. This project models, in Dafny, the logic that sits
under that glue, and proves properties of it:

- **Identifier extraction** (`VideoId`). `ExtractVideoID` works the same way in both
  revisions: the `v` query value of a request URI, else its last path segment, else a
  heuristic that keeps what follows the last `v=` and then the last `/`.
  `url.ParseRequestURI` together with `Query().Get("v")` is a function parameter
  `parse: string -> Option<Uri>`. The heuristic is modelled over `seq<char>`, on top of
  a model of Go's `strings.Index`, `Contains` and `Split` (`GoStrings`).
- **The storage directory and the downloader** (`Storage`). The `Host` class holds the
  state of `/tmp/ytdl/` as a `Listing`, every command line handed to `sh -c`, and every
  path handed to `os.RemoveAll`. `FindOutputFile` is its first-match scan. A run of the
  downloader is an oracle `ToolOutcome`: the directory afterwards, the
  `[ffmpeg] Destination:` submatches of its output, and the error `cmd.Output()` returns.
- **The in-flight guard** (`Guard`). `idsInProgress` is an `InFlight` object over
  `set<string>`, with `LoadOrStore` and `Delete`.
- **The current revision's `DoDownload`** (`Download`). It reuses an existing file of an
  acceptable format. Otherwise it builds the command line, runs it, looks again, and
  removes the stale file only when the new lookup finds something.
- **Chat messages** (`Chat`). A message, what is sent back, and the shared reply texts
  are common to both bot loops.
- **The bot front end** (`Telegram`). This covers `parseArgs`, the in-flight bracket of
  `telegramListenHandle`, and the `switch` of `processTelegramUpdates` over a finite
  sequence of updates.
- **The older single-file revision** (`Hello`, from `hello.go`). This covers its own
  `doDownload`: it skips the run when the metadata side-car exists, and takes the last
  non-empty submatch as the file name. It also covers the HTTP `downloadHandle` and the
  bot loop that stops at the first failed download. That loop is specified by
  `RunUpTo`, which handles the updates one by one on the directory the previous ones
  left behind.

The constants of `internal/settings.go` are in `Settings`. `hello.go` repeats
`baseDir` and `commandName` with the same values.

What the model shows about the code as written:

- `DoDownload` may return the stale file's name and also remove that same file. The
  lookup after the run takes the first matching entry, and that can be the old file
  again (`Download.StaleFileReturnedAndRemoved`).
- A run that leaves no audio file and exits cleanly is reported as success with an
  empty name (`Download.NoFileNoError`). The code returns the subprocess's error, which
  may be nil. It does not report a separate download failure.
- The command line is one shell string. When the formats hold no space, the line
  determines the identifier and the format (`Download.SpaceFreeRequestsRecoverable`).
  Both front ends keep to that: `parseArgs` cuts its format at a space
  (`Telegram.ParsedRequestsRecoverable`), and the HTTP handler asks for "" or "mp3".
  The ambiguity is only in `DoDownload`'s own arguments: a format such as `a' -- b`
  makes two different requests run the same line (`Download.CommandLineAmbiguous`).

`internal/telegram.go` calls `extractVideoID` and `doDownload` in lower case, but
package `internal` declares only the exported `ExtractVideoID` and `DoDownload`. The
model binds the calls to those two functions, the only candidates with those
signatures.

## Model

| member | source | states |
|---|---|---|
| GoStrings.LastPiece | internal/download.go:21-23 | `splitted[len(splitted)-1]` of `strings.Split(s, sep)` is a suffix of `s` with no `sep`. It follows a `sep` when `s` has one, and is all of `s` when it has none. |
| GoStrings.FirstPiece | internal/telegram.go:49-53 | `splitted[0]` has no separator. There is exactly one piece iff the input has no separator, and then it is the input. Otherwise the input starts with piece 0 and the separator, and the other pieces split the rest. |
| GoStrings.LastPieceUnique | internal/download.go:27-36 | For `/` or `v=`, a separator-free suffix that follows a separator is the last piece of the split. |
| GoStrings.JoinSplit | internal/telegram.go:49 | Joining the pieces of `strings.Split` with the same separator gives back the input. |
| VideoId.UriBranch | internal/download.go:16-24 | A parsed input with a non-empty `v` query value gives that value verbatim. Without one, the result is the text after the last `/` of the path: a `/`-free suffix of the path, which is "" when the path ends in `/`, and the whole path when it has no `/`. |
| VideoId.ExtractVideoID | internal/download.go:15-37 | The extractor. VideoId.UriBranch states its two parsed branches. The lemmas on Fallback state the unparsed branch, and VideoId.DocumentedUrls and VideoId.DocumentedToken state the documented inputs. |
| VideoId.Fallback | internal/download.go:26-36 | The heuristic for unparsable inputs. VideoId.FallbackIsCleanSuffix, VideoId.FallbackKeepsPlainToken, VideoId.FallbackAfterLastSlash and VideoId.FallbackAfterLastV characterise it. |
| VideoId.FallbackIsCleanSuffix | internal/download.go:26-36 | The heuristic for unparsable inputs returns a suffix of the input that contains neither `/` nor `v=`. |
| VideoId.FallbackKeepsPlainToken | internal/download.go:26-36 | An unparsable input with neither `v=` nor `/` comes back unchanged. |
| VideoId.ShortLink | internal/download.go:21-23 | A request URI whose path is `/` plus a `/`-free token, with no `v` query value, gives that token. |
| VideoId.DocumentedUrls | internal/settings.go:7 | The two URL forms named in the invalid-parameter message give `b8g1o8Ph7LQ`. |
| VideoId.DocumentedToken | internal/settings.go:7 | The bare token form named in the invalid-parameter message comes back unchanged. |
| VideoId.FallbackAfterLastSlash | hello.go:48-57 | An unparsable input that ends in `/` plus a token without `/` or `v=` gives that token, whatever precedes the `/`, a `v=` included: `youtu.be/<id>` gives `<id>`, and `watch?v=abc/def` gives `def`. The extractor of hello.go:36-58 has the same text as internal/download.go:15-37. |
| VideoId.FallbackAfterLastV | hello.go:48-57 | An unparsable input that ends in `v=` plus a token without `/` or `v=` gives that token, whatever precedes it (`www.youtube.com/watch?v=<id>`). |
| Storage.FirstOutputFile | internal/download.go:43-47 | The answer is "", or an entry of the listing that starts with the identifier and does not end in `.info.json`. |
| Storage.FirstOutputFileIsFirstMatch | internal/download.go:43-47 | Either no entry matches and the answer is "", or the answer is the earliest matching entry. |
| Storage.OutputFileIsAudio | internal/download.go:40-51 | The lookup never answers with a side-car. A non-empty answer is an entry of a directory that could be opened and listed, and starts with the identifier. |
| Storage.Without | internal/download.go:80 | After removing a path, an entry remains iff it was listed and is not the removed path. |
| Storage.Host.FindOutputFile | internal/download.go:40-51 | The early-return scan over `Readdirnames` returns exactly the first-match answer of the current directory. It returns "" when the directory cannot be opened or listed. |
| Storage.Host.Run | internal/download.go:72-75 | Running the command appends it to the command log, leaves the directory as the downloader does, and returns the downloader's error. |
| Storage.Host.RemoveAll | internal/download.go:80-83 | The removal is logged. It returns an error iff it fails, and it drops the entry from the directory iff it succeeds. |
| Guard.InFlight.LoadOrStore | internal/telegram.go:28 | `loaded` holds iff the identifier was already in flight. Afterwards it is in flight, and nothing else changes. |
| Guard.InFlight.Delete | internal/telegram.go:37 | The identifier is no longer in flight, and nothing else changes. |
| Guard.AcquireTwiceThenRelease | internal/telegram.go:28-37 | Each result is the `loaded` flag of `LoadOrStore`. A second acquisition of an identifier finds it loaded and is refused. After the first holder's `Delete`, a third one succeeds. |
| Download.BuildCommand | internal/download.go:66-71 | The step-by-step construction (`commandParams +=`) produces DownloadCommand. |
| Download.CommandShape | internal/download.go:66-71 | The command starts with the tool and the fixed options, and ends with ` -- ` and the identifier. It carries ` --audio-format '<fmt>'` right after the fixed options iff the format is non-empty. Otherwise it is the fixed options alone. |
| Download.FormatRecoverable | internal/download.go:68-71 | For a fixed identifier, the command determines the requested format. |
| Download.OptionInjective | internal/download.go:68-70 | Different formats give different conversion options. |
| Download.IdRecoverable | internal/download.go:71 | For a fixed format, the command determines the identifier. |
| Download.SpaceFreeRequestsRecoverable | internal/download.go:66-71 | When neither format contains a space, equal command lines come from equal identifiers and equal formats. |
| Download.CommandLineAmbiguous | internal/download.go:66-72 | With a space and a quote in the format, the pairs (`c`, `a' -- b`) and (`b' -- c`, `a`) produce the same shell line. |
| Download.DownloadResult | internal/download.go:54-90 | The name and error DoDownload returns. Download.ReuseIgnoresTool, Download.AfterRun, Download.StaleFileReturnedAndRemoved and Download.NoFileNoError characterise it. |
| Download.DoDownload | internal/download.go:54-90 | The name and error are DownloadResult. The command component is always "". With a reusable file, nothing is run or removed. Otherwise exactly one command is run. The stale file is handed to `os.RemoveAll` only when the new lookup finds something. The directory is then the downloader's, minus the stale file if its removal succeeded. |
| Download.ReuseIgnoresTool | internal/download.go:56-60 | With an existing file of an acceptable format, the result is that file and no error, whatever the downloader would do. |
| Download.AfterRun | internal/download.go:78-89 | After a run, the error is always the subprocess's own. A removal error is never returned. The name is "" or an audio entry of the new listing. |
| Download.StaleFileReturnedAndRemoved | internal/download.go:78-86 | The old `.webm` listed ahead of the new `.mp3` is returned as the result and also removed. Only the `.mp3` remains. |
| Download.NoFileNoError | internal/download.go:88-89 | A clean run that leaves no audio file gives the name "" and no error. |
| Telegram.ParseArgs | internal/telegram.go:48-57 | parseArgs. Telegram.ParseArgsPieces, Telegram.ParseArgsRoundTrip and Telegram.ParseArgsIgnoresRest characterise it. |
| Telegram.ParseArgsPieces | internal/telegram.go:48-57 | Neither returned piece contains a space. Without a space, the result is (args, ""). With one, the args are `id format`, or start with `id format ` (the rest ignored). |
| Telegram.ParseArgsRoundTrip | internal/telegram.go:48-57 | Two space-free words joined by one space are read back as (identifier, format). |
| Telegram.ParseArgsIgnoresRest | internal/telegram.go:54-55 | Whatever follows a second space does not change the result. |
| Telegram.DoubleSpaceGivesEmptyFormat | internal/telegram.go:49-55 | `id  mp3` is read as (`id`, ""). |
| Telegram.ParsedRequestsRecoverable | internal/telegram.go:48-57 | Two argument strings whose parsed identifier and format give the same command line ask for the same identifier and the same format. |
| Telegram.Dispatch | internal/telegram.go:66-81 | The switch: /start and /info show the help, /listen parses its arguments, and any other command parses the whole text. Telegram.ProcessTelegramUpdates states the first answer each request gets. |
| Telegram.HandleListen | internal/telegram.go:20-46 | The listen handler on a given in-flight set and directory: its replies, the directory afterwards, the commands run and the removals. Telegram.ListenHandle ties the method to it, and Telegram.FirstReply states its first reply. |
| Telegram.ListenHandle | internal/telegram.go:20-46 | What is sent and what the host becomes equal HandleListen for the guard set and the directory before the call. While the download runs, the guard set is the set before plus the identifier (`heldDuring`). An empty identifier gets the invalid-parameter message, and the host is untouched. An identifier in flight gets the busy message, and no download. Otherwise the wait message, the typing action, and the download result or `Cannot load a video with id <id>`. The host then changes as DoDownload changes it: nothing with a reusable file, else one command run, the stale file's removal, and the new directory. The guard set afterwards always equals the set before. |
| Telegram.FirstAnswer | internal/telegram.go:21-34 | The first thing sent for a request. Telegram.FirstReply states that the handler sends it first. |
| Telegram.HandleUpdate | internal/telegram.go:62-81 | One turn of the loop on a given directory: nothing for a nil message, the help text for /start and /info, and otherwise HandleListen on the parsed arguments. |
| Telegram.FirstReply | internal/telegram.go:62-81 | A turn for a nil message sends nothing. Any other turn sends at least one message, and the first is FirstAnswer for its request. |
| Telegram.AnswerUpdate | internal/telegram.go:62-81 | One turn of the loop: what is sent and what the host becomes equal HandleUpdate for the guard set and the directory before it. The first thing sent is FirstAnswer. The guard set is unchanged. |
| Telegram.RunUpTo | internal/telegram.go:59-83 | The first `n` turns in channel order, each on the directory the earlier ones left (RunWith over HandleUpdate). Telegram.RunStep and Telegram.RunAnswered characterise it. |
| Telegram.RunStep | internal/telegram.go:59-83 | The run over one more update extends the run so far by that update's turn: its replies, tagged with the update, its directory, its commands and its removals. |
| Telegram.AnswerStep | internal/telegram.go:60-81 | A turn that sends nothing for a nil message, and otherwise first the answer that the `answer` function gives for the message, keeps the answered-property for one more update. |
| Telegram.RunWithAnswered | internal/telegram.go:59-83 | For any turn function that answers this way, the run sends replies only for messages, sends each message the answer that `answer` gives for it, and keeps the replies in update order. |
| Telegram.RunAnswered | internal/telegram.go:59-83 | RunUpTo sends replies only for messages, sends each message the first answer its request calls for, and keeps channel order. |
| Telegram.ProcessTelegramUpdates | internal/telegram.go:59-83 | What is sent, the directory, the commands run and the removals equal RunUpTo of all updates, with the guard set as it was at the start. Nil messages get nothing. Every other message gets the first answer its request calls for: /start and /info get the help text; /listen parses its arguments; other text parses the whole text. Replies go out in channel order, and the guard set is unchanged. |
| Hello.LastNonEmptyOf | hello.go:73-78 | The result is "" or one of the submatches. |
| Hello.LastNonEmptyIsLast | hello.go:73-78 | The result is "" iff every submatch is empty. Otherwise it is a submatch after which all are empty. |
| Hello.HelloResult | hello.go:60-83 | What doDownload returns. Hello.DoDownload ties the method to it, and Hello.LastNonEmptyIsLast characterises the name. |
| Hello.DoDownload | hello.go:60-83 | The submatch loop yields the last non-empty submatch. When `os.Stat` reports the side-car missing, the command `youtube-dl … 'worstaudio/worst' … -- <id>` is run, and its name, command and error are returned. Otherwise the result is ("", "", nil), and the host is untouched. |
| Hello.DownloadHandle | hello.go:85-128 | A non-GET gets 405. An empty `v` gets 400. An empty extracted identifier gets 400. One in flight gets 429, with no download. In all of these the host is untouched. Otherwise the response is a 500 with the command error, or a redirect to `/listen`. The host changes as doDownload changes it: one command run and the downloader's directory when the side-car is missing, nothing otherwise. While the download runs, the guard set is the set before plus the identifier (`heldDuring`). The guard set afterwards equals the set before. |
| Hello.HandleListen | hello.go:195-224 | The /listen case on a given directory. Hello.StopIsFailedDownload and Hello.ListenCase characterise it. |
| Hello.ListenCase | hello.go:195-224 | The /listen case equals HandleListen for the guard set and the directory before it. An empty identifier and one in flight are refused with the host untouched. Otherwise the wait message, the typing action, and the link or `Command <c> error: <e>`. The loop stops exactly when the download failed. The host changes as doDownload changes it. While the download runs, the guard set is the set before plus the identifier (`heldDuring`). |
| Hello.HandleUpdate | hello.go:184-227 | One turn of the loop on a given directory. Hello.RepliesIffAnswerable and Hello.StopIsFailedDownload characterise it. |
| Hello.AnswerUpdate | hello.go:184-227 | One turn of the loop equals HandleUpdate for the guard set and the directory before it. The host changes only as the /listen case changes it. |
| Hello.StopIsFailedDownload | hello.go:207-222 | A turn ends the loop iff the update is a /listen whose identifier is non-empty, not in flight, and whose download returned an error. |
| Hello.RepliesIffAnswerable | hello.go:184-227 | A turn sends something iff the update is a /start, /info or /listen message. /start and /info get the help text alone. |
| Hello.RunUpTo | hello.go:181-229 | The first `n` turns in channel order, each on the directory the earlier ones left. The Run lemmas characterise what it sends. |
| Hello.RunRepliesAnswerable | hello.go:181-229 | Everything sent in the first `n` turns answers one of those updates, and only /start, /info and /listen messages. |
| Hello.RunAnswersEach | hello.go:181-229 | Every /start, /info or /listen message among the first `n` updates gets at least one reply. |
| Hello.RunSendsHelp | hello.go:188-194 | Every /start and /info message among the first `n` updates gets the help text. |
| Hello.RunStopReply | hello.go:218-222 | When turn `n - 1` stops the loop, the last thing sent is `Command <c> error: <e>`, in answer to that update. |
| Hello.ProcessTelegramUpdates | hello.go:181-229 | What is sent, the directory and the commands run are RunUpTo of the consumed updates. The loop consumes the updates up to and including the first one that stops it, or all of them when none does. Only /start, /info and /listen messages get replies, each of them gets one, and /start and /info get the help text. After an early stop the last thing sent is the command error. The guard set is unchanged. |

## Left out

- Subprocess execution (`exec.Command("sh", "-c", …)`, `cmd.Output()`). The external process cannot be modelled, so its outcome is a parameter (`ToolOutcome`).
- `url.ParseRequestURI`, `Query().Get` and `destinationRegex.FindSubmatch`. These are library code, so the parser is a function parameter and the submatch list is part of `ToolOutcome`.
- `os.Open`, `Readdirnames` and `os.Stat` are read from the `Listing` of the host. `os.Stat` on a directory that cannot be listed counts as "some other error". The model does not separate a file that exists in a directory that cannot be listed.
- Logging (`log.Printf`) has no effect on results and is not modelled.
- The Telegram bot API (`bot.Send`, the webhook, `InitBotAPI`) and the HTTP server are network I/O. Messages sent are a returned sequence, and the updates channel is a finite sequence.
- `internal/http.go` and `cmd/server/main.go` are HTTP glue and wiring, and are not part of this model. `listenHandle` and the template rendering in hello.go are left out for the same reason.
- The atomicity of `sync.Map` and concurrent handlers. Both are modelled sequentially; what happens when two requests interleave is not captured.
- Storage.StatOf: the listing is flat, so an identifier that contains `/` gives "does not exist". `os.Stat` on such a path may find an existing file in a subdirectory, or fail with ENOTDIR, and then hello.go:62 skips the run. Subdirectories of `/tmp/ytdl/` are not modelled.
