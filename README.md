# Universal Audio Editor: a verified model of its decision logic

Universal Audio Editor is a browser application. It trims audio and video,
extracts the audio track of a video, and downloads remote media through a
small server route. The media work itself is done by the ffmpeg engine
compiled to WebAssembly. What is left in the repository's own code is a set
of decision rules and state changes, and this project models them in Dafny:

- `DownloadRoute` (`route.dfy`) models the `POST /api/download` handler as
  one pure function. Its inputs are the request body, an abstract URL parser
  and the abstract outcome of the outbound fetch. It proves:
  - the order of the fail-fast checks;
  - the hostname blocklist, both exactly as written and measured against the
    private ranges of section 3 of RFC 1918;
  - how each upstream outcome maps to a response.
- `FfmpegTime` (`ffmpeg_time.dfy`) models `formatTime` and `parseTime` over
  whole centiseconds in exact arithmetic, and proves that
  `parseTime(formatTime(t)) == t`.
- `FfmpegDuration` (`ffmpeg_duration.dfy`) states the duration syntax
  documented in the "Time duration" section of the ffmpeg-utils manual. This
  gives the `-ss`/`-t` arguments the pages build a meaning, and it is where
  the first finding below is shown.
- `FileTransfer` (`file_transfer.dfy`) models the one-shot file hand-off
  between pages as a class with a nullable slot.
- `TrimPage` (`trim_page.dfy`) models the trim page as a class. It covers:
  - file acceptance;
  - the two sliders, which keep start < end;
  - stop-at-end preview;
  - the file names and MIME type of a trim;
  - the engine arguments of a trim, both as the page writes them and corrected.
- `AudioToVideoPage` (`audio_to_video_page.dfy`) models the audio extraction
  page. It covers video-only acceptance, the codec table and the engine
  arguments.
- `DownloadPage` (`download_page.dfy`) models the download page. It covers:
  - the blank-URL guard;
  - the trimmed request URL;
  - the choice of extension from the content type and the requested format;
  - the error handling.
- `AudioPlayer` (`audio_player.dfy`) models the waveform player, with times
  and volume as `real`s. It covers the seek clamp, play and mute toggles,
  the volume/mute coupling, the reset on a new source, the time updates
  ignored while seeking, and the "played bar" predicate.
- Shared pieces:
  - `JsText` (`js_text.dfy`) holds the JavaScript string built-ins the code
    relies on: `trim`, `split`, `startsWith`, `includes`, `lastIndexOf`,
    `substring`, `replace` of the first match, `padStart`, `parseInt`, and
    `Number#toString` on naturals and on hundredths.
  - `Media` (`media.dfy`) holds the `File` record, the 500 MiB cap, the
    last-dot extension rule and the outcome of an engine run.
  - `Wrappers` (`wrappers.dfy`) holds `Option`.

## Model

| member | source | states |
|---|---|---|
| DownloadRoute.FailFast | src/app/api/download/route.ts:7-54 | The response is decided by the first failing check, in the order url present, url parses, scheme http/https, host allowed, and its message is that check's; no fetch is sent unless all pass. |
| DownloadRoute.UrlRequiredFirst | src/app/api/download/route.ts:7-12 | A missing, empty or non-string url answers 400 "A valid URL is required", whatever the parser and the upstream would do. |
| DownloadRoute.UnreadableBody | src/app/api/download/route.ts:4-5 | A body that is not JSON is caught and answered with 500, and nothing is fetched. |
| DownloadRoute.FetchOnlyWhenValid | src/app/api/download/route.ts:7-54 | A fetch is issued exactly when the body is JSON and every check passes; when none is issued the upstream outcome cannot change the answer. |
| DownloadRoute.BlocklistExactly | src/app/api/download/route.ts:34-42 | A hostname is rejected exactly when it is one of the four listed names or starts with one of the three listed prefixes. |
| DownloadRoute.QuadBlockedExactly | src/app/api/download/route.ts:34-42 | On a dotted IPv4 quad the blocklist stops exactly first octet 10 or 172, 192.168.x.x, 127.0.0.1 and 0.0.0.0. |
| DownloadRoute.QuadPrefixes | src/app/api/download/route.ts:37-39 | The prefixes `10.`, `172.` and `192.168.` match a dotted quad exactly when its leading octets are those numbers. |
| DownloadRoute.QuadNames | src/app/api/download/route.ts:35-41 | A dotted quad equals `127.0.0.1` or `0.0.0.0` only for those octets, and never equals `localhost` or `[::1]`. |
| DownloadRoute.QuadInjective | src/app/api/download/route.ts:33 | Two dotted quads are the same hostname only when their octets are equal. |
| DownloadRoute.PrivateRangesBlocked | src/app/api/download/route.ts:32-47 | Every address of 10/8, 172.16/12 and 192.168/16 is rejected. |
| DownloadRoute.PublicAddressBlocked | src/app/api/download/route.ts:39 | The `172.` prefix over-blocks: the public 172.200.1.1 is rejected. |
| DownloadRoute.LoopbackOnlyOneAddress | src/app/api/download/route.ts:36 | Of the loopback range 127/8 only 127.0.0.1 is rejected; 127.0.0.2 passes. |
| DownloadRoute.NonOkPassedThrough | src/app/api/download/route.ts:56-61 | A non-ok upstream answer is relayed with its own status and the error "Failed to fetch: <status> <statusText>". |
| DownloadRoute.OversizeRejectedUnread | src/app/api/download/route.ts:63-72 | A declared Content-Length above 524288000 answers 413 before the body is read. |
| DownloadRoute.AbsentLengthNeverRejected | src/app/api/download/route.ts:64-72 | A missing or empty Content-Length never causes the 413 answer. |
| DownloadRoute.SuccessResponse | src/app/api/download/route.ts:63-83 | A success is status 200 carrying the bytes, with Content-Type from upstream or `application/octet-stream`, Content-Length only when upstream sent one, and Content-Disposition `attachment`. |
| DownloadRoute.ResponseShapes | src/app/api/download/route.ts:3-96 | Every answer is either a JSON error body or a 200 attachment. |
| DownloadRoute.ErrorsMapped | src/app/api/download/route.ts:84-95 | A thrown TimeoutError answers 504 and any other throw 500, with their fixed messages, whether thrown by the fetch or by reading the body. |
| DownloadRoute.Caught | src/app/api/download/route.ts:84-95 | The catch block answers 504 exactly for a TimeoutError and 500 otherwise. |
| DownloadRoute.FirstFailing | src/app/api/download/route.ts:7-47 | The first failing check is a listed check that fails, and every check before it passes. |
| DownloadRoute.ErrorsNotEmpty | src/app/api/download/route.ts:8-94 | No JSON answer of the route carries an empty error text. |
| FfmpegTime.FormatTimeFields | src/lib/ffmpeg.ts:20-25 | `formatTime` output has the shape `MM:SS.cc`. Minutes is the floor of seconds/60, the seconds field lies in 0..59, the hundredths field in 0..99, and the fields denote the input. |
| FfmpegTime.ParseTime | src/lib/ffmpeg.ts:27-35 | `parseTime` gives 0 unless the text splits into exactly two parts on `:`. |
| FfmpegTime.ParseTimeWithHundredths | src/lib/ffmpeg.ts:28-32 | `parseTime("m:s.c")` is m minutes + s seconds + c hundredths. |
| FfmpegTime.ParseTimeWithoutHundredths | src/lib/ffmpeg.ts:31-32 | A missing `.c` part counts as 0 hundredths. |
| FfmpegTime.ParseFormatTime | src/lib/ffmpeg.ts:20-35 | Round trip: for every whole number of centiseconds t, `parseTime(formatTime(t)) == t`. |
| FfmpegTime.MinutesSecondsHundredths | src/lib/ffmpeg.ts:21-23 | The seconds and hundredths fields are below 60 and 100, and the three fields recombine to the input. |
| FfmpegDuration.ReadFormatTime | src/app/trim/page.tsx:128 | Under one hour, the engine reads `formatTime(t)` as exactly t. |
| FfmpegDuration.ReadNumberText | src/app/trim/page.tsx:129-134 | The engine reads the printed number of seconds `(end - start).toString()`, negative values included, as exactly that duration. |
| FfmpegDuration.ReadColonTime | src/app/trim/page.tsx:128 | `formatTime(t).replace(".", ":")` reads as hours = minutes, minutes = seconds and seconds = hundredths, and is rejected when the hundredths are 60 or more. |
| FfmpegDuration.ColonTimeMisread | src/app/trim/page.tsx:128-133 | For every start after 0, the engine does not read the `-ss` text the page sends as that start. |
| FileTransfer.SharedFileSlot.constructor | src/lib/fileTransfer.ts:1 | The slot starts out empty. |
| FileTransfer.SharedFileSlot.SetSharedFile | src/lib/fileTransfer.ts:3-5 | The slot holds the given file, whatever it held before. |
| FileTransfer.SharedFileSlot.GetSharedFile | src/lib/fileTransfer.ts:7-11 | Returns what the slot held and leaves it empty. |
| FileTransfer.GetBeforeAnySet | src/lib/fileTransfer.ts:1-11 | Before any set, a get returns null. |
| FileTransfer.SetThenGetTwice | src/lib/fileTransfer.ts:3-11 | After a set, the next get returns that file and a second get returns null. |
| FileTransfer.SetTwiceThenGet | src/lib/fileTransfer.ts:3-5 | A later set overwrites an unretrieved earlier one. |
| FileTransfer.GetTwice | src/lib/fileTransfer.ts:7-11 | Two consecutive gets never both return a file. |
| Media.DotSuffix | src/app/trim/page.tsx:121 | `name.substring(name.lastIndexOf("."))` is empty only for an empty name. It is the whole name when there is no point, and otherwise a point followed by no other point that ends the name. |
| Media.Caught | src/app/trim/page.tsx:151 | A thrown `Error` shows its message; anything else shows the page's fallback text. |
| TrimPage.Check | src/app/trim/page.tsx:38-50 | A file is accepted exactly when its type starts with `audio/` or `video/` and it is at most 500 MiB, and it counts as audio exactly when its type starts with `audio/`. The two rejections carry their messages. |
| TrimPage.Extension | src/app/trim/page.tsx:121 | The extension is never empty, is the last-dot suffix of a non-empty name, and falls back to `.mp3`/`.mp4` only for an empty name. |
| TrimPage.MimeTypeOfExtension | src/app/trim/page.tsx:142 | The blob type is `audio/` or `video/` and then the extension without its leading point. |
| TrimPage.JobNames | src/app/trim/page.tsx:121-123 | The engine's input and output names differ and carry the same extension. |
| TrimPage.StartArgument | src/app/trim/page.tsx:128-133 | With the corrected start text, under one hour the engine seeks to exactly the selection's start. |
| TrimPage.LengthArgument | src/app/trim/page.tsx:129-134 | The engine keeps exactly `end - start`. |
| TrimPage.WrittenArgs | src/app/trim/page.tsx:128-137 | The list the page hands the engine matches the corrected list at every position except the `-ss` value, which is `formatTime(start).replace(".", ":")`. |
| TrimPage.WrittenStartMisread | src/app/trim/page.tsx:128-137 | As written, the engine never seeks to the selection's start, for any start after 0. |
| TrimPage.ArgsSelection | src/app/trim/page.tsx:128-137 | The corrected list, `-ss formatTime(start)` and `-t (end - start)`, makes the engine seek to exactly the start and keep exactly the length (starts under one hour). |
| TrimPage.TrimPage.constructor | src/app/trim/page.tsx:22-33 | No file, no error, no output; all times 0 and not playing. |
| TrimPage.TrimPage.HandleFile | src/app/trim/page.tsx:38-53 | A rejected file only sets the error. An accepted one becomes the file with its kind, clears error and output, resets the start to 0, and keeps start ≤ end ≤ duration when it held before. |
| TrimPage.TrimPage.OnLoadedMetadata | src/app/trim/page.tsx:57-60 | The duration and the end become the media's duration. |
| TrimPage.TrimPage.SlideStart | src/app/trim/page.tsx:311-320 | The start takes the slider's value only when it lies before the end, so start < end is preserved. |
| TrimPage.TrimPage.SlideEnd | src/app/trim/page.tsx:327-336 | The end takes the slider's value only when it lies after the start, so start < end is preserved. |
| TrimPage.TrimPage.OnTimeUpdate | src/app/trim/page.tsx:79-85 | The shown time follows the element, and reaching the end of the selection pauses it and clears isPlaying. |
| TrimPage.TrimPage.OnEnded | src/app/trim/page.tsx:86 | `ended` clears isPlaying. |
| TrimPage.TrimPage.TogglePlayback | src/app/trim/page.tsx:95-106 | Nothing without a file; while playing it pauses; otherwise it seeks to the start and plays. |
| TrimPage.TrimPage.HandleTrim | src/app/trim/page.tsx:108-156 | Nothing without a file. Otherwise the engine gets the file and the current selection, and the outcome sets the output URL, the error (the message of a thrown Error, else the fallback), or both. When the trim button was enabled (`trimmedDuration > 0`), the job's start lies before its end. |
| TrimPage.TrimPage.Clear | src/app/trim/page.tsx:236-243 | No file, output or error, and duration, start and end back to 0. |
| AudioToVideoPage.Rejection | src/app/audio-to-video/page.tsx:33-44 | A file is accepted exactly when its type starts with `video/` and it is at most 500 MiB; the two rejections carry their messages. |
| AudioToVideoPage.AudioRejected | src/app/audio-to-video/page.tsx:34-37 | An audio file is never accepted, whatever its size. |
| AudioToVideoPage.FormatNamesDistinct | src/app/audio-to-video/page.tsx:79 | Distinct formats have distinct names, so the output name tells the format. |
| AudioToVideoPage.CodecTable | src/app/audio-to-video/page.tsx:84-89 | Each entry names an encoder after `-acodec`, the four encoders differ, and the bitrate option `-ab 192k` is present exactly for the lossy formats. |
| AudioToVideoPage.InputName | src/app/audio-to-video/page.tsx:78 | The input name is `input` and then the name's last-dot suffix (the whole name without a point). |
| AudioToVideoPage.ArgsShape | src/app/audio-to-video/page.tsx:91-96 | The arguments are `-i <input> -vn`, then the format's codec entry unchanged, then the output name last. |
| AudioToVideoPage.NamesDiffer | src/app/audio-to-video/page.tsx:78-79 | The engine's input and output names never collide. |
| AudioToVideoPage.OutputMatchesBlob | src/app/audio-to-video/page.tsx:79-101 | The output file's extension and the blob's subtype are both the format's name. |
| AudioToVideoPage.AudioToVideoPage.constructor | src/app/audio-to-video/page.tsx:22-28 | No file, format mp3, no error, no output. |
| AudioToVideoPage.AudioToVideoPage.HandleFile | src/app/audio-to-video/page.tsx:33-44 | A rejected file only sets the error; an accepted one becomes the file and clears error and output. |
| AudioToVideoPage.AudioToVideoPage.SelectFormat | src/app/audio-to-video/page.tsx:213 | Only the format changes. |
| AudioToVideoPage.AudioToVideoPage.HandleExtract | src/app/audio-to-video/page.tsx:65-114 | Nothing without a file. Otherwise the engine gets the input name and the format, and the outcome sets the output URL, the error, or both. |
| AudioToVideoPage.AudioToVideoPage.Clear | src/app/audio-to-video/page.tsx:191-195 | No file, output or error. |
| DownloadPage.ChooseExtension | src/app/download/page.tsx:59-64 | Audio content (tested first) is saved in an audio format, keeping mp3/wav and turning mp4/webm into mp3. Video content is saved in a video format, keeping mp4/webm and turning mp3/wav into mp4. Other content keeps the requested format. |
| DownloadPage.ChooseExtensionIdempotent | src/app/download/page.tsx:59-64 | A chosen extension is never changed by choosing again for the same content. |
| DownloadPage.SaveName | src/app/download/page.tsx:69 | The saved name is `download.` and then the extension. |
| DownloadPage.RefusalMessage | src/app/download/page.tsx:50-53 | A refused request shows the body's non-empty `error` field, otherwise "Failed to download file". |
| DownloadPage.RouteErrorsShown | src/app/download/page.tsx:50-53 | Every error answer of the server route is shown as the route wrote it. |
| DownloadPage.DownloadPage.constructor | src/app/download/page.tsx:18-22 | Empty URL, format mp3, not loading, no error, no success. |
| DownloadPage.DownloadPage.EditUrl | src/app/download/page.tsx:124-128 | The URL takes the typed text, and the error and success notice are cleared. |
| DownloadPage.DownloadPage.SelectFormat | src/app/download/page.tsx:146 | Only the format changes. |
| DownloadPage.DownloadPage.HandleDownload | src/app/download/page.tsx:26-83 | A blank URL sets "Please enter a valid URL" and sends nothing; otherwise the non-empty trimmed URL is sent. A received file is saved as `download.<ext>` and flagged successful. A refusal shows the route's error, an AbortError is swallowed, any other throw shows its message or the fallback. Loading ends. |
| AudioPlayer.Clamp | src/components/AudioPlayer.tsx:87 | The ratio lies in [0, 1], equals its input inside that range, and is 0 or 1 outside it. |
| AudioPlayer.SeekRatio | src/components/AudioPlayer.tsx:86-87 | The pointer's fraction of the waveform lies in [0, 1]: 0 left of it, 1 right of it. |
| AudioPlayer.ProgressBounds | src/components/AudioPlayer.tsx:130 | A position within the media gives a progress in [0, 1]. |
| AudioPlayer.ProgressOfSeek | src/components/AudioPlayer.tsx:130 | After seeking to a fraction of the media, the progress is that fraction. |
| AudioPlayer.PlayedBarsPrefix | src/components/AudioPlayer.tsx:174-175 | The played bars form a prefix of the waveform. |
| AudioPlayer.PlayedBarsCount | src/components/AudioPlayer.tsx:173-175 | Bar i is played exactly when i ≤ 60·progress; the first bar always is, and at progress 1 all 60 are. |
| AudioPlayer.Player.IconTruthful | src/components/AudioPlayer.tsx:314 | While the sound controls are consistent, the mute icon shows muted exactly when the element makes no sound. |
| AudioPlayer.Player.constructor | src/components/AudioPlayer.tsx:24-29 | Not playing, at 0, unknown duration, volume 1, unmuted, not seeking; the sound controls are consistent. |
| AudioPlayer.Player.OnLoadedMetadata | src/components/AudioPlayer.tsx:45 | Only the duration changes. |
| AudioPlayer.Player.OnTimeUpdate | src/components/AudioPlayer.tsx:46-48 | The shown time follows the element unless a seek is in progress. |
| AudioPlayer.Player.OnEnded | src/components/AudioPlayer.tsx:49 | `ended` clears isPlaying. |
| AudioPlayer.Player.ChangeSource | src/components/AudioPlayer.tsx:62-65 | A new source resets isPlaying to false and the time to 0. |
| AudioPlayer.Player.TogglePlay | src/components/AudioPlayer.tsx:68-78 | isPlaying flips and the element is paused exactly when it was playing. |
| AudioPlayer.Player.SeekTo | src/components/AudioPlayer.tsx:81-93 | Nothing while the duration is not positive. Otherwise the element and the shown time go to the pointer's fraction of the duration, which lies in [0, duration]. |
| AudioPlayer.Player.WaveformDown | src/components/AudioPlayer.tsx:95-110 | A press starts seeking, installs the drag listeners and seeks to the pointer. |
| AudioPlayer.Player.MouseMove | src/components/AudioPlayer.tsx:100-107 | A move seeks only while a press's listeners are installed. |
| AudioPlayer.Player.MouseUp | src/components/AudioPlayer.tsx:101-105 | The release ends seeking and removes the listeners. |
| AudioPlayer.Player.ToggleMute | src/components/AudioPlayer.tsx:113-118 | `muted` flips and the element's flag follows it; consistency is preserved. |
| AudioPlayer.Player.HandleVolumeAsWritten | src/components/AudioPlayer.tsx:120-128 | The volume goes to the element and the slider; 0 mutes the player, any other value unmutes the player, and the element's flag is left alone. |
| AudioPlayer.Player.HandleVolume | src/components/AudioPlayer.tsx:120-128 | As written, except that unmuting also unmutes the element; sound consistency is preserved. |
| AudioPlayer.MuteThenRaiseVolume | src/components/AudioPlayer.tsx:113-128 | Muting and then raising the slider, as written, shows the player unmuted while the element is silent. |
| AudioPlayer.MuteThenRaiseVolumeCorrected | src/components/AudioPlayer.tsx:113-128 | The same steps with the corrected handler show the player unmuted and the element audible. |
| JsText.TrimEmptyIffBlank | src/app/download/page.tsx:27 | `url.trim()` is empty exactly when the URL is all whitespace. |
| JsText.LastIndexOf | src/app/trim/page.tsx:121 | `lastIndexOf` gives -1 exactly when the character is absent, and otherwise the index of its last occurrence. |
| JsText.SplitJoin | src/lib/ffmpeg.ts:28-31 | `split` pieces hold no separator and join back to the input. |
| JsText.TwoDigitField | src/lib/ffmpeg.ts:24 | `n.toString().padStart(2, "0")` is all digits, denotes n and is two characters long below 100. |
| JsText.ParseField | src/lib/ffmpeg.ts:32 | `parseInt` reads a padded field back as its number. |

## Left out

- The network: the route's outbound `fetch` and its 30-second `AbortSignal.timeout`, and the download page's own `fetch`. Each becomes an input datatype describing its outcome (`DownloadRoute.Upstream`, `DownloadPage.Outcome`).
- URL parsing (`new URL`): the route takes the parser as a function argument returning the protocol and hostname, or nothing for a malformed URL.
- The ffmpeg engine (`getFFmpeg`, `writeFile`, `exec`, `readFile`, `deleteFile`): the pages are modelled up to the arguments they hand it. The outcome of a run is an input (`Media.Run`). `getFFmpeg`'s lazy module-level cache is not modelled.
- Browser APIs: object URLs, Blob construction, anchor clicks, element `play()` promises and `onloadedmetadata` probing. The probed duration is an input of `OnLoadedMetadata`.
- Floating point. Trim-page times are whole centiseconds (`nat`) in exact arithmetic. The end time starts as the probed media duration, which need not be a whole number of centiseconds. `(end - start).toString()` is modelled on whole centiseconds, so binary rounding such as `0.30000000000000004` is not captured. The player uses exact `real`s.
- `FfmpegTime.FormatTimeFields`: holds in exact arithmetic only. JavaScript computes `Math.floor((seconds % 1) * 100)` on doubles. That can truncate the hundredths by one: 0.29 s prints as `00:00.28`, 1.15 s as `00:01.14` and 2.01 s as `00:02.00`. So the round trip and the exact seek are not promised for such times.
- `FfmpegTime.ParseFormatTime`: exact arithmetic only, for the reason given for `FfmpegTime.FormatTimeFields`.
- `FfmpegDuration.ReadFormatTime`: exact arithmetic only, for the same reason.
- `TrimPage.StartArgument`, `TrimPage.ArgsSelection`: exact arithmetic only, for the same reason.
- `FfmpegDuration`: ffmpeg's unit suffixes (`s`, `ms`, `us`) are not modelled; such texts read as rejected.
- `TrimPage.StartArgument`: stated for starts under one hour only. From 60 minutes on, `formatTime` prints a minutes field of 60 or more, which ffmpeg's `MM:SS` form rejects.
- `DownloadPage.Outcome`: the `error` property of a refusal is a string or missing. A truthy non-string value, which `data.error || …` would turn into the message of a thrown `Error`, is not modelled, because the route only sends strings.
- `parseInt`'s `0x` hexadecimal prefix, and `parseFloat` on the slider values: the sliders are modelled as handing over numbers.
- `TrimPage.TrimPage.SlideStart`, `TrimPage.TrimPage.SlideEnd`: require a value within `[0, duration]`, which a range input with `min={0} max={duration}` guarantees.
- `AudioPlayer.Player.SeekTo`, `WaveformDown`, `MouseMove`: require a waveform of positive width. A pointer press cannot land on a zero-width element, and the JavaScript infinities and NaN of a division by zero are not modelled.
- React effect lifecycles, listener registration and the interleaving of `await`s. Each handler is one atomic method, so a second click during a running trim, extraction or download is not modelled.
- Progress percentages, the `loading`/`loadingFFmpeg` flags of the two engine pages, drag-and-drop highlighting and the audio-to-video page's displayed duration: these are display-only state with no rule attached.
- The `Math.sin` bar heights and the `Math.random` bar animation of the player: floating-point decoration.
- `src/components/Navbar.tsx`, `src/app/page.tsx`, `src/app/layout.tsx` and `src/app/manifest.ts` are not part of this model: they hold markup, metadata and a `pathname === href` comparison.

## Findings

| source | as written | input that shows it | evidently intended | confidence | as-written member | corrected member |
|---|---|---|---|---|---|---|
| src/app/trim/page.tsx:128-133 | The `-ss` argument is `formatTime(startTime).replace(".", ":")`, i.e. `MM:SS:cc`, which ffmpeg reads as `HH:MM:SS`. | A start of 1.5 s is sent as `00:01:50`, which the engine reads as 110 s. A start of 0.75 s is sent as `00:00:75`, which it rejects. | Seek to the selected start: send `formatTime(startTime)` (`MM:SS.cc`), which the engine reads as exactly that time. | medium: not executed; relies on ffmpeg's documented duration syntax | TrimPage.WrittenStartMisread | TrimPage.ArgsSelection |
| src/components/AudioPlayer.tsx:120-128 | `handleVolume` clears the `muted` state but never sets `audio.muted = false`. | Press mute (the element is muted), then move the volume slider to 0.5: the icon shows unmuted while the element stays silent. | Unmuting through the slider unmutes the element too, so the icon tells whether sound plays. | high: not executed | AudioPlayer.MuteThenRaiseVolume | AudioPlayer.Player.HandleVolume |
