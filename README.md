# showrec in Dafny

A Dafny model of the recording tools of showrec. The model covers five programs:

- **`showrec.py`** captures an HTTP audio stream into a file for a fixed duration. It retries a lost connection with jittered exponential backoff. Across reconnects it keeps appending to the same file.
- **`showrec_hls.py`** records HLS streams through streamlink or ffmpeg, then remuxes the finished file.
- **`schedule_recordings.py`** turns calendar events into recording requests. It keeps a registry of queued, active and completed recordings.
- **`show_status.py`** prints the scheduler's status file.
- **`playrec.py`** plays a recording while it is still growing.

Modules, one per concern:

- `Wrappers` holds `Option` and `Result`.
- `Text` holds decimal rendering and parsing, zero and space padding, Python's `int()` and float floor division, ASCII lower-casing, substring search, `str.replace`, and the `\s` class.
- `Paths` holds `os.path.splitext`, `basename` and `join`.
- `ShowrecModel` is `record_stream` as a function of an environment trace. Each `Attempt` is one turn of the `while True` loop: the clock at the top of the loop, what the connection did, and the jitter a backoff would use.
- `ShowrecProofs` holds the properties of that function.
- `Showrec` is `record_stream` as an imperative method over an `OutputFile` object, proved equal to the trace model. It also holds the progress bar's `_format_time`.
- `ShowrecHls` covers backend choice, exit-code mapping, the result record and `fix_file_format`. The last is a method over a `FileSystem` object, proved against a function.
- `ScheduleParse` covers file-name sanitising, stream-URL extraction, `parse_event_for_recording`, `_get_event_id` and `resolve_calendar_id`.
- `Schedule` covers the `Registry` class, the post-recording upload / delete / backup decision and the status snapshot.
- `ShowStatus` covers `format_duration`, `format_time` and what `show_status` lists and returns.
- `Playrec` covers key decoding, the `KeyboardHandler` and `ProgressBar` classes, the `RealtimePlayer` class with its seek and restart clamp, and the playback loop's growth tracking.

Inputs stand in for the outside world. Time is a caller-supplied number and sleeping takes no time. The backoff sleeps are logged in the state instead. Tool probes, child-process exit codes, the mixer's "busy" answers and file sizes are all arguments.

## Model

| member | source | states |
|---|---|---|
| ShowrecProofs.StreamWritesPrefix | showrec.py:199-227 | The chunk loop writes exactly the chunks up to and including the first non-empty one at or past the deadline, then returns success with that chunk's time. If there is no such chunk, it writes them all and falls through. |
| ShowrecProofs.ConnectionWrites | showrec.py:191-227 | An accepted connection resets the retry counter and delay, opens the file by `file_exists`, and then writes the chunk prefix that StreamWritesPrefix describes. |
| ShowrecProofs.EmptyChunksIgnored | showrec.py:199-202 | Empty chunks change nothing: the loop over the chunks behaves as over the non-empty ones alone. |
| ShowrecProofs.StepKeepsBytes | showrec.py:195-227 | One turn appends exactly the bytes it received to the file, without truncating it. The counter stays equal to the file size, and a returned dictionary reports that size. |
| ShowrecProofs.FailureKeepsFile | showrec.py:280-357 | The except clauses leave the file and the byte counter alone, and a returned dictionary reports that counter. |
| ShowrecProofs.CloseKeepsFile | showrec.py:229-278 | The end-of-stream handling leaves the file and the byte counter alone, and a returned dictionary reports that counter. |
| ShowrecProofs.StepPreservesInv | showrec.py:156-158 | The loop variables keep their relations from turn to turn. The counter equals the file size, and is at least the initial size. The delay is a function of the retry count. |
| ShowrecProofs.RunKeepsBytes | showrec.py:141-156 | Over a whole run, the file holds what it held before, followed by every byte received, in order. The counter is the file size and the reported size is it. |
| ShowrecProofs.CaptureKeepsBytes | showrec.py:141-144 | From the start of `record_stream`, an existing file's content is kept as a prefix and the counter starts at its size. The reported size is never below it. |
| ShowrecProofs.SuccessOnlyAtDeadline | showrec.py:174-180 | A run reports success only once the deadline is reached, and success holds exactly when no error is reported. |
| ShowrecProofs.DeadlineMeansSuccess | showrec.py:174-278 | The converse: a deadline already passed at the top of the loop returns success with the file untouched. A connection accepted in time that writes no late chunk and closes at or after the deadline returns success at the close time, with the bytes it wrote. |
| ShowrecProofs.EarlyCloseAfterConnect | showrec.py:229-278 | A stream that ends before the deadline is a disconnection. Because a connect resets the counters, the run gives up only if `max_retries` < 1. Otherwise it retries once with retry count 1, sleeps `retry_delay × jitter`, and reopens for appending. |
| ShowrecProofs.RefusalVerdict | showrec.py:295-342 | A refused connection counts one attempt and one retry. The retry limit is checked before the deadline, then one backoff sleep follows. |
| ShowrecProofs.TerminalErrorsStop | showrec.py:280-293 | A keyboard interrupt or an unexpected exception stops at once with failure, carrying `'User interrupted'` or the exception text. It keeps the bytes written so far. |
| ShowrecProofs.RefusedUntilExhausted | showrec.py:295-313 | Against a source that keeps refusing, a run with `k` retries already counted makes exactly `max_retries - k + 1` more attempts. It then fails with the last error; a shorter trace leaves it still retrying. |
| ShowrecProofs.ExactAttemptsBeforeGivingUp | showrec.py:295-313 | From the start, exactly `max_retries + 1` connection attempts are made (one if `max_retries` ≤ 0). The run then fails with the last error's text. |
| ShowrecProofs.DelayBounds | showrec.py:254-262 | The backoff delay is never negative and never exceeds max(`retry_delay`, 60). After one failure it is at most 60. |
| ShowrecProofs.DelayClosedForm | showrec.py:330-338 | After k ≥ 1 failures the delay is min(`retry_delay` × 2^k, 60). |
| ShowrecProofs.SleepBounds | showrec.py:254-256 | A sleep lasts between half and one and a half times its delay. |
| ShowrecProofs.BackoffAppends | showrec.py:254-262 | A backoff logs exactly one sleep of the current delay times the jitter. |
| ShowrecProofs.RunWaitsBounded | showrec.py:254-262 | Each turn adds at most one sleep, so every sleep of a run from a valid state stays within the bounds. |
| ShowrecProofs.CaptureWaitsBounded | showrec.py:254-262 | Every backoff sleep of a run uses a jitter in [0.5, 1.5] and a delay of at most max(`retry_delay`, 60). |
| Showrec.OutputFile.constructor | showrec.py:141-144 | The file as `os.path.exists` finds it: present with its bytes, or absent and empty. |
| Showrec.OutputFile.Open | showrec.py:195-196 | Opening with `'ab'` keeps the content; opening with `'wb'` empties the file. |
| Showrec.OutputFile.Write | showrec.py:200-201 | A write appends the chunk. |
| Showrec.CopyChunks | showrec.py:199-227 | The imperative chunk loop does exactly what the trace model's chunk loop does. |
| Showrec.RecordStream | showrec.py:121-375 | The imperative `record_stream` returns the trace model's dictionary exactly when the model's run finishes. The file ends holding the model's bytes. |
| Showrec.SplitSeconds | showrec.py:66-69 | hours×3600 + minutes×60 + secs is the whole number of seconds, with minutes and secs below 60. There are hours exactly from 3600 s on. |
| Showrec.FormatTimeRoundTrip | showrec_hls.py:66-76 | Reading `_format_time`'s text back gives `int(seconds)`. The text is the five-character `MM:SS` form exactly below one hour. |
| ShowrecHls.Choose | showrec_hls.py:449-509 | `auto` picks streamlink if present, else ffmpeg. A missing tool or an unknown method gives the matching error message and no backend. |
| ShowrecHls.BackendSucceeded | showrec_hls.py:293-317 | A backend succeeds exactly when the child exits with code 0. An interrupt or an exception is a failure. |
| ShowrecHls.RefusedResult | showrec_hls.py:462-468 | A run refused before recording reports failure, the output path, size 0, duration 0 and the error message. |
| ShowrecHls.FinalResult | showrec_hls.py:524-530 | Success gives the file, size and duration and no error. Failure gives no file, size 0, duration 0 and `'Recording failed'`. |
| ShowrecHls.FileSystem.Remove | showrec_hls.py:190 | `os.remove` deletes the path and fails exactly when it was missing. |
| ShowrecHls.FileSystem.Rename | showrec_hls.py:191 | `os.rename` moves the bytes to the destination and fails, changing nothing, when the source is missing. |
| ShowrecHls.FileSystem.Write | showrec_hls.py:172-186 | A child process writing a path replaces that path's bytes and nothing else. |
| ShowrecHls.FixFileFormat | showrec_hls.py:141-221 | The imperative remux step leaves the files and the verdict that the `Remux` function describes, using the corrected temporary path. |
| ShowrecHls.TempPath | showrec_hls.py:163 | The corrected temporary path inserts `_fixed` before the extension, so it always differs from the output path. |
| ShowrecHls.NoM4aMeansSamePath | showrec_hls.py:163 | As written, a path without a lower-case `.m4a` is its own temporary path. |
| ShowrecHls.RemuxKeepsRecording | showrec_hls.py:152-221 | With the corrected temporary path, the fix succeeds exactly when ffmpeg is present, exits 0 and leaves a temporary file; the output then holds the remuxed bytes. Every ending other than exit 0 keeps the original bytes. No temporary file survives, and no other file changes. |
| ShowrecHls.TempPathAgrees | showrec_hls.py:163 | For `<name>.m4a` paths, where `.m4a` occurs only at the end, the corrected temporary path is the one the source derives. |
| ShowrecHls.AsWrittenDeletesRecording | showrec_hls.py:163 | With the temporary path as written, an output `show.M4A` is deleted by every ending of the ffmpeg run. |
| ShowrecHls.RecordStream | showrec_hls.py:423-530 | A refused choice returns the refusal result and touches no file. Otherwise the files left are what the backend wrote, run through `FixFileFormat` with the corrected temporary path when the backend succeeded and the output exists. The result comes from the backend's verdict and the file's size after the remux, and None (the `getsize` exception) happens exactly when the remux lost the file. A remux failure never changes `success`. For `show.M4A` the model keeps the recording, where showrec_hls.py:163 as written loses it (see Findings). |
| ShowrecHls.RecordingSurvives | showrec_hls.py:513-519 | A recording on disk is still there after the remux, holding its own bytes or ffmpeg's copy. |
| ScheduleParse.CollapseSpaces | schedule_recordings.py:321 | After `re.sub(r'\s+', '_', …)` no whitespace is left and the text is no longer. Every character other than whitespace and `_` is kept, in order. Nothing forbidden is introduced, and a text without whitespace is unchanged. |
| ScheduleParse.Strip | schedule_recordings.py:322 | `strip('._')` returns the contiguous middle of the text. Everything before it and after it is `.` or `_`, and the result neither starts nor ends with either. A clean text stays clean. |
| ScheduleParse.SanitizeFilename | schedule_recordings.py:317-323 | The safe title is at most 50 characters, has none of `<>:"/\?*`, no vertical bar and no whitespace, and does not start with `.` or `_`. |
| ScheduleParse.SanitizeKeepsSafeTitles | schedule_recordings.py:317-323 | A title that is already safe comes back unchanged. |
| ScheduleParse.Substitute | schedule_recordings.py:320 | Each of `<>:"/\?*` and the vertical bar becomes `_`, every other character is kept in place, and a text without them is unchanged. |
| ScheduleParse.AnywhereMatchIff | schedule_recordings.py:295-303 | A pattern matches at i exactly when a scheme starts at i and the marker occurs later in the same whitespace-free run. |
| ScheduleParse.FirstMatch | schedule_recordings.py:305-308 | The leftmost index where the pattern matches. |
| ScheduleParse.TryPatternsFirst | schedule_recordings.py:305-308 | Patterns are tried in order: the first pattern with any match gives its leftmost match, and nothing is found only when none matches. |
| ScheduleParse.TryKeywordsFirst | schedule_recordings.py:310-315 | The first keyword present in the text gives its URL, and nothing is found only when none is present. |
| ScheduleParse.KeywordFallback | schedule_recordings.py:97-101 | Without a meeting marker or a URL, the result is decided by `bassdrive`, then `dnbradio`, then `default`, else None. |
| ScheduleParse.GetStreamUrl | schedule_recordings.py:284-315 | A Teams/Zoom/Meet marker gives None even if a URL is present. Otherwise the first matching pattern wins, and the keyword fallback applies when none matches. |
| ScheduleParse.MatchShape | schedule_recordings.py:295-303 | A match starts with `http://` or `https://` (ignoring case) and holds no whitespace. |
| ScheduleParse.StreamUrlShape | schedule_recordings.py:284-315 | A URL that is found is one of the two fixed keyword URLs, or a whitespace-free `http(s)://` run of the event text. |
| ScheduleParse.HlsLinkWins | schedule_recordings.py:295-308 | An `.m3u8` link wins over every other link, wherever it stands: the result is the leftmost `.m3u8` match. |
| ScheduleParse.DurationMinutes | schedule_recordings.py:246 | `int(seconds / 60)` truncates toward zero. |
| ScheduleParse.ExtensionFor | schedule_recordings.py:265-268 | `.m4a` exactly when the lowered URL contains `.m3u8`, otherwise `.mp3`. |
| ScheduleParse.ParseEventForRecording | schedule_recordings.py:225-282 | Returns None exactly when start or summary is missing, a `dateTime` is missing, or no stream URL is found. Otherwise start, end, location and description are the event's own, and the stream URL is the one the URL search finds. The file is `<output>/<safe title>_<YYYYMMDD_HHMM><ext>` built from that start and URL, and the duration is in whole minutes. |
| ScheduleParse.RecordingFileInOutputDir | schedule_recordings.py:261-271 | The recording's file name has no `/`, so its base name after joining is the name itself: the file sits directly in the output directory. |
| ScheduleParse.GetEventId | schedule_recordings.py:325-327 | The event's own id if it has one, otherwise summary (or `unknown`), then `_`, then the start text, and nothing else. |
| ScheduleParse.EventIdsSeparateStarts | schedule_recordings.py:325-327 | Without ids, the same summary at different start texts gives different event ids. |
| ScheduleParse.ResolveCalendarId | schedule_recordings.py:140-182 | Names with `@`, `primary`, and any listing error return the name itself. Otherwise the result is None exactly when no calendar summary contains the name, ignoring case. |
| ScheduleParse.ExactMatchPreferred | schedule_recordings.py:154-168 | The first exact case-insensitive match wins over any earlier partial match. |
| ScheduleParse.FirstPartialWins | schedule_recordings.py:161-167 | With no exact match anywhere, the first calendar in list order whose summary contains the name wins. |
| Schedule.PostRecordingConsistent | schedule_recordings.py:478-517 | Upload happens only for a success with an uploader. Deletion happens only after a successful upload, backup only after a failed upload with a backup path, and never both. An upload exception is the only way to the exception path. |
| Schedule.EventIdOf | schedule_recordings.py:379 | The event id is the one set by the caller. Otherwise it is the title, then `_`, then the start's ISO text, field by field. |
| Schedule.CompletionKeepsVerdict | schedule_recordings.py:519-567 | The completion record keeps the title, file name, recorder verdict and size. It is the normal record exactly when neither the recorder nor the upload raised. |
| Schedule.FixExtension | schedule_recordings.py:396-407 | The file name ends, ignoring case, with the extension matching the stream. It is kept if it already did; otherwise its last extension is replaced. |
| Schedule.FixExtensionIdempotent | schedule_recordings.py:396-407 | Fixing the extension twice is fixing it once. |
| Schedule.Latest | schedule_recordings.py:357 | `completed[-n:]`: the last n records in order, or all of them when there are fewer. |
| Schedule.Registry.constructor | schedule_recordings.py:89-91 | The registry starts with no queued, active or completed recordings. |
| Schedule.Registry.ScheduleRecording | schedule_recordings.py:375-433 | Refuses an event that is queued or active, or that has started. A dry run touches nothing. Otherwise the event is queued with its extension fixed. No event is ever both queued and active. |
| Schedule.Registry.BeginRecording | schedule_recordings.py:446-461 | The event leaves `queued` and enters `active`. |
| Schedule.Registry.FinishRecording | schedule_recordings.py:467-567 | On the normal and on the exception path, the event leaves `active` and exactly one completion record is appended. |
| Schedule.Registry.Snapshot | schedule_recordings.py:329-364 | The snapshot holds both maps and at most the 20 latest completions. |
| Schedule.Lifecycle | schedule_recordings.py:375-567 | An event that is scheduled, started and finished ends in neither map, with its completion as the one new last record. |
| ShowStatus.SplitDuration | show_status.py:24-26 | Minutes and secs lie in [0, 59] and hours×3600 + minutes×60 + secs = ⌊seconds⌋. There are hours exactly from 3600 s on, and minutes but no hours exactly in [60, 3600). |
| ShowStatus.DurationFields | show_status.py:28-33 | `format_duration`'s text is the hours, minutes and seconds fields exactly as far as they are shown: all three from an hour on, minutes and seconds from a minute on, else seconds alone. |
| ShowStatus.FormatDurationRoundTrip | show_status.py:22-33 | Reading `format_duration`'s `Hh Mm Ss` / `Mm Ss` / `Ss` text back gives ⌊seconds⌋ for non-negative input. |
| ShowStatus.FormatTime | show_status.py:14-20 | Unparseable input comes back unchanged. A parsed time prints as `YYYY-MM-DD HH:MM:SS`, and each digit field reads back as the parsed year, month, day, hour, minute and second. |
| ShowStatus.ShowStatus | show_status.py:35-136 | A missing or unreadable file returns 1 and lists nothing. A loaded one returns 0 with totals equal to the three list lengths, and lists the last 10 completions in order. |
| ShowStatus.ViewOfSnapshot | show_status.py:100-136 | Read from the scheduler's snapshot, the viewer counts all active and queued recordings and at most 20 completions. It lists the latest ten, newest last. |
| ShowStatus.StorageNoteIsTruthful | show_status.py:114-121 | "Deleted" is shown only for an uploaded recording and "backed up" only after a failed upload. The file name is shown exactly when neither happened. |
| Playrec.GetKey | playrec.py:66-83 | ESC `[A`/`[B`/`[C`/`[D` decode to up/down/right/left, space to `space`, and `q` or Ctrl-C to `quit`, each as an if-and-only-if. Every other character decodes to itself; end of input gives `''`. |
| Playrec.DefaultKeys | playrec.py:141-146 | With the default bindings, each command is triggered by exactly its keys. |
| Playrec.KeyboardHandler.AddCallback | playrec.py:30-32 | A new binding replaces any earlier binding of the key. |
| Playrec.KeyboardHandler.Start | playrec.py:34-38 | Starting sets `running` and keeps the bindings. |
| Playrec.KeyboardHandler.Stop | playrec.py:40-44 | Stopping clears `running` and keeps the bindings. |
| Playrec.KeyboardHandler.Lookup | playrec.py:57-58 | Only a non-empty key with a registered callback triggers anything, and it triggers that callback. |
| Playrec.BytesToSeconds | playrec.py:179-183 | Seconds × 20000 = bytes (160 kbit/s), never negative for a size. |
| Playrec.BytesToSecondsScale | playrec.py:179-183 | 20000 more bytes is one more second, and the estimate is monotone. |
| Playrec.MinutesClockFields | playrec.py:116-120 | For non-negative input the clock is `Pad2(n / 60):Pad2(n % 60)` of the whole seconds n. |
| Playrec.SignedPad2 | playrec.py:120 | `{n:02d}` of a non-negative number is its two-digit zero padding. |
| Playrec.MinutesClockWidth | playrec.py:116-120 | The clock is five characters exactly below 100 minutes. |
| Playrec.MinutesClockReadBack | playrec.py:116-120 | Below 100 minutes the clock reads back as the whole number of seconds. |
| Playrec.MinutesClockMatchesRecorder | playrec.py:116-120 | Below an hour the player's clock prints what the recorder's clock prints. |
| Playrec.RatioBounds | playrec.py:96 | The ratio lies in [0, 1] and is 1 exactly once playback reaches the recorded length. |
| Playrec.BarShape | playrec.py:99-101 | For playback ≥ 0 the bar is exactly `width` cells, the full ones first, and entirely full once playback reaches the recorded length. |
| Playrec.PercentShape | playrec.py:96-97 | The percentage lies in 0..100 and is 100 exactly once playback reaches the recorded length. |
| Playrec.ProgressBar.Update | playrec.py:90-114 | Nothing happens when recorded ≤ 0; otherwise the shown line becomes the status line. |
| Playrec.ProgressBar.constructor | playrec.py:86-88 | A new bar has its width and no line shown yet. |
| Playrec.RestartClamps | playrec.py:189-201 | A restart never moves forward or below 0. It keeps a position at least one second inside the recording, and otherwise jumps to one second before the end. |
| Playrec.RealtimePlayer.constructor | playrec.py:127-146 | A new player starts at position 0, not playing, with a 50-cell bar and the default bindings. |
| Playrec.RealtimePlayer.Restart | playrec.py:185-203 | Plays from the clamped position, writes the clamp back, and sets the start time so the clock reads it. |
| Playrec.RealtimePlayer.SeekBack | playrec.py:148-153 | The position becomes max(0, pos − 10), clamped by the restart; it is never negative. |
| Playrec.RealtimePlayer.SeekAhead | playrec.py:155-161 | The position becomes pos + 10, clamped by the restart. |
| Playrec.RealtimePlayer.Pause | playrec.py:163-173 | The pause flips only while the mixer is busy. |
| Playrec.RealtimePlayer.HandleKey | playrec.py:46-58 | A key press runs exactly the bound command with its whole effect: a seek sets the clamped position, logs the start and resets the clock; a pause flips only while the mixer is busy; quit stops playback and the handler. Every other field is kept, and an unbound key changes nothing. |
| Playrec.RealtimePlayer.Start | playrec.py:205-224 | Once the file exists, the player is playing and the key handler runs, with the position untouched. |
| Playrec.RealtimePlayer.Stop | playrec.py:226-231 | Playback stops and the key handler stops, with the position untouched. |
| Playrec.RealtimePlayer.StartIfIdle | playrec.py:263-272 | An idle, unpaused mixer is started, from one second before the end when the position is at or past the recorded length. |
| Playrec.RealtimePlayer.ShowProgress | playrec.py:274-281 | While playing, the position catches up with the clock once it is more than a second behind, and the bar is redrawn. |
| Playrec.TrackIsLargest | playrec.py:244-254 | The tracked size is the largest size seen, timed at the first turn that saw it; every earlier turn saw the file strictly smaller. |
| Playrec.TrackGrows | playrec.py:252-254 | `last_file_size` only increases. |
| Playrec.EndMeansQuiet | playrec.py:284-288 | A turn that ends the loop saw no growth for more than ten seconds. |
| Playrec.FirstEnd | playrec.py:257-261 | The first turn at or after i with at least 1024 bytes and more than 10 s without growth, or none if no turn qualifies. |
| Playrec.RealtimePlayer.Turn | playrec.py:242-290 | One turn updates the growth record and measures the time since growth. It starts the mixer exactly when the file is there with ≥ 1024 bytes, the mixer is idle and playback is not paused. The new position, start log, clock and bar line are given through the start check and the progress step; a turn with less than 1024 bytes changes nothing. |
| Playrec.RealtimePlayer.PlaybackLoop | playrec.py:233-294 | The loop ends at the first turn with ≥ 1024 bytes and more than 10 s without growth, and reports the tracked size. The turns that start the mixer are exactly those up to the end that saw ≥ 1024 bytes with an idle, unpaused mixer, in order, and every start is logged. |
| Playrec.StartingTurnsExactly | playrec.py:263-272 | A turn is listed as starting the mixer exactly when it saw ≥ 1024 bytes with an idle, unpaused mixer, and the list ascends. |

## Left out

- Network I/O, `requests`, the clock and `random.uniform` are left out. A trace of attempts, integer clock readings and jitter values replaces them.
- `time.sleep` is left out: sleeps are logged, not timed.
- Threads, `status_lock`, the progress-monitor threads and the key listener thread are left out. Every operation is a sequential call.
- The streamlink and ffmpeg processes, their probes, pygame, termios and the Google Calendar, Drive and OAuth clients are left out. Their answers are inputs.
- `check_streamlink` is probed twice in `auto` mode; the model assumes both probes give the same answer.
- ffmpeg is probed several times (showrec_hls.py:452, showrec_hls.py:486, and showrec_hls.py:157 inside `fix_file_format`); the model uses one `tools.ffmpeg` for the backend choice and the remux, so it assumes every probe gives the same answer.
- Printing, emoji output, `ProgressBar.update`/`clear` of `showrec.py` and `showrec_hls.py`, and JSON serialisation are left out. They only display.
- `wait_until_start_time`, `main`, `run_scheduler`, `watch_status` and `play_realtime` are left out. They are command-line drivers and polling loops over the modelled operations.
- Sizes are byte counts: the float `size_mb` conversion is left out.
- `datetime` parsing, time zones and `strftime` are left out. An event time is an `Instant` holding its text, epoch seconds and local fields.
- The `re` engine is left out. Each URL pattern is the leftmost case-insensitive `http(s)://` whose whitespace-free run contains the marker.
- Case folding is ASCII-only.
- The unreachable code at schedule_recordings.py:183-206 is left out.
- The missing `list_calendars` called at schedule_recordings.py:792 is left out.
- Showrec.RecordStream: a trace that runs out while the loop would go on yields None. The real loop would block on the network.
- Showrec.RecordStream: a `KeyboardInterrupt` raised during the sleep of the connection-error handler (showrec.py:335) escapes `record_stream` and is not modelled.
- Showrec.RecordStream: a `KeyboardInterrupt` raised during the early-close sleep (showrec.py:259) is inside the `try`, so `record_stream` returns the `'User interrupted'` result (showrec.py:280-293), even when the deadline passed during that sleep. The model cannot produce this case: an interrupt is only seen at the top of a turn, and a turn that starts past the deadline reports success.
- Python floats are modelled as exact reals. This covers `format_duration`, `_format_time`, the `bytes / 20000.0` estimate, the progress ratio and percentage, and the player's clock and position; rounding of IEEE doubles is not modelled.
- Showrec.RecordStream: `retry_delay` is a natural number, because `time.sleep` raises on a negative delay.
- ShowrecHls.RecordStream: an `os.path.getsize` exception, after the remux lost the file, is `None`.
- Playrec.RealtimePlayer.Start: the wait for the file to appear and the `ImportError` when pygame is missing are left out.
- Playrec.RealtimePlayer.PlaybackLoop: an `os.path.getsize` exception inside the loop is left out.
- Playrec.RealtimePlayer.PlaybackLoop: a `KeyboardInterrupt` is left out. Key presses run through `HandleKey`, separately from the ticks.
- Playrec.ProgressBar.Update: the line is printed only when it changed; the model records the shown line and leaves printing out.

## Findings

| source | as written | input that shows it | evidently intended | confidence | as-written member | corrected member |
|---|---|---|---|---|---|---|
| showrec_hls.py:163 | The temporary path is `output_file.replace('.m4a', '_fixed.m4a')`. It equals the output path when the path has no lower-case `.m4a`. Then the failure clean-up removes the recording, and on exit 0 the rename after `os.remove(output)` finds nothing. | `--output show.M4A` with ffmpeg present | A temporary path distinct from the output, e.g. `_fixed` inserted before the extension, so a failed remux never touches the recording | not executed | ShowrecHls.AsWrittenDeletesRecording | ShowrecHls.RemuxKeepsRecording |
