# alex-terminal in Dafny

This project models the logic of alex-terminal, the desktop chat window for the
ALEX assistant. The window talks to ALEX's control API on port 9090. It speaks
replies aloud (OpenAI speech, played with `mpg123`/`ffplay` and routed to a
Bluetooth speaker when `pactl` lists one), takes dictation from a USB microphone
(`arecord` plus Whisper), and polls for messages ALEX sends on its own.

Under the Qt, HTTP and subprocess glue sit small sequential decision procedures.
The model states and proves what they do. The outside world (HTTP replies, files,
environment variables, subprocess results, the OpenAI calls) becomes input values.

- `wrappers.dfy`: `Option`, and `Outcome` (a value or the text of a raised exception).
- `text.dfy`: the Python string operations the code relies on: `isspace`, `strip`,
  ASCII `lower`, `split(sep)`, `in` on strings, the first token of `split()`,
  and `str(int)`. Each comes with its round-trip or characterising lemmas.
- `json.dfy`: a parsed JSON value as Python sees it, with truthiness, `dict.get`
  and the AttributeError text of `.get` on a non-dict.
- `alex_client.dfy`: the control-API client. The HTTP outcome is a datatype.
  Each call is a classification function over it.
- `autonomous.dfy`: the autonomous poller. Record normalisation and the events of
  a list are functions. The tick (`_poll`) and the `run`/`stop` flag are methods
  of a class, proved against those functions.
- `voice_engine.dfy`: the config store, the `pactl` sink parser, and the TTS and
  STT workers' decision ladders. A worker's run is a method that returns its
  trace of steps and signals.
- `alex_terminal.dfy`: the command and health-check workers, input and
  slash-command handling, the uptime text, and the window (`Terminal`) as a class.
  The class has `voiceOn`, `inputEnabled`, `ttsActive`, `sttActive`, the chat
  area and the other fields its handlers update. A Qt signal is delivered by
  calling the handler method.

## Model

| member | source | states |
|---|---|---|
| AlexClient.Headers | alex_client.py:20-26 | `Content-Type: application/json` is always present. `X-Terminal: true` is present iff `terminal`. `Authorization: Bearer <token>` is present iff the token is set and non-empty. No other key appears. |
| AlexClient.HealthCheck | alex_client.py:28-40 | A non-`None` result comes only from a 200 reply and is its parsed body. Every parsed 200 body is returned, including falsy ones. |
| AlexClient.SendMessage | alex_client.py:42-67 | At least one half of the pair is `None`. A response is present only on a successful 200 reply. Timeout gives "Request timed out". A connection failure gives "Cannot connect to ALEX". Any other exception, or an unparsable body, gives its message. A non-dict body gives the `.get` AttributeError text. |
| AlexClient.SendMessageSuccess | alex_client.py:58-59 | A 200 reply with truthy `success` yields its `response`, or `""` when absent. |
| AlexClient.SendMessageFailure | alex_client.py:60-61 | Any other dict reply yields no response. The error is the body's `error`, or `"HTTP <status>"`, from which the status reads back. |
| AlexClient.SendMessageCorrected | alex_client.py:42-67 | Exactly one half is set. A response is a string. An error is a non-empty string. A response is present iff the reply succeeded, and it is the original string response (`""` when the original has none). A usable error of the original is kept. |
| AlexClient.GetTerminalMessages | alex_client.py:69-81 | A 200 dict reply gives its `messages` (`[]` when absent). A 200 reply that parses to a non-dict raises the AttributeError. Everything else gives `[]`. |
| Autonomous.DefaultTitleWhenAbsent | autonomous.py:42-45 | A record without `title` is emitted under "ALEX". |
| Autonomous.Title | autonomous.py:42 | The title is the record's `title` when present, otherwise "ALEX". |
| Autonomous.Body | autonomous.py:43 | The body is `body` when present, even if empty. Otherwise it is `text`, otherwise `""`. |
| Autonomous.RecordStep | autonomous.py:41-45 | A record is skipped iff it is a dict with a falsy body. An emitted event carries the record's body, a non-empty string, and its title (`None` arrives as `""`). A dict with a truthy string body and a string or `None` title is always emitted. Anything else raises. |
| Autonomous.WellFormedStep | autonomous.py:44-45 | A dict record with string title and body is emitted iff its body is non-empty, and never raises. |
| Autonomous.EventsOf | autonomous.py:41-45 | A list of records yields no more events than records, and every event has a non-empty body. |
| Autonomous.EventsOfAppend | autonomous.py:41-45 | Over records that do not raise, the events of a concatenation are the concatenated events. |
| Autonomous.EventsStopAtFailure | autonomous.py:56-62 | A record that raises ends the loop: only the events before it are emitted. |
| Autonomous.EventsCount | autonomous.py:56-60 | When every record is well formed, nothing raises and the number of events is the number of records with a non-empty body. |
| Autonomous.EventsKeepOrder | autonomous.py:41-45 | Each event is emitted by a record of the list, and the emitting records are in increasing list order. |
| Autonomous.ApiRecords | autonomous.py:38-47 | Records come only from a 200 dict reply whose `messages` is a list, and they are exactly that list. Any other reply, or a non-list `messages`, gives no records. |
| Autonomous.FileTick | autonomous.py:49-62 | The file half acts iff the file parses to a non-empty list and can be written. It first clears the file, then delivers the list's events, and leaves `[]` behind. Any other file is kept and yields nothing. An exception escapes iff the bytes are not UTF-8 or a record raises. |
| Autonomous.TickOrder | autonomous.py:36-62 | `Tick` (one `_poll`): all API events come first. A queue file holding a non-empty list (and writable) is cleared next, before any of its events. Then come its events, and the file holds `[]` afterwards. Any other file is left unchanged and yields no events. |
| Autonomous.TickEscapes | autonomous.py:39-62 | An exception escapes a tick iff the file is not UTF-8 or a file record raises. API failures are swallowed and the file half still runs. |
| Autonomous.TicksBounded | autonomous.py:27-31 | `Ticks`, the ticks `run` performs: at most one per scheduled tick, and at least one. Only the last tick can have been stopped or have raised. |
| Autonomous.AutonomousPoller.constructor | autonomous.py:22-24 | The flag starts cleared. |
| Autonomous.AutonomousPoller.Stop | autonomous.py:33-34 | `stop()` clears the flag. |
| Autonomous.AutonomousPoller.DeliverRecords | autonomous.py:41-45 | The loop's output is the delivered events of the records. It raises iff some record raises. |
| Autonomous.AutonomousPoller.PollApi | autonomous.py:38-47 | The API half delivers the events of the fetched records. Its exception is swallowed. |
| Autonomous.AutonomousPoller.PollFile | autonomous.py:49-62 | The file half is `FileTick`: the queue is cleared, then drained. |
| Autonomous.AutonomousPoller.Poll | autonomous.py:36-62 | `_poll` is `Tick`: the API half, then the file half. |
| Autonomous.AutonomousPoller.Run | autonomous.py:27-34 | The ticks run are `Ticks(schedule, file)`. The flag ends cleared iff `stop()` was called during the last tick, whether or not that tick raised. |
| VoiceEngine.VoiceSetting | voice_engine.py:32-50 | A missing or unreadable config gives `True`. A dict config gives its `voice_enabled`, or `True` when that key is absent. |
| VoiceEngine.LoadConfig | voice_engine.py:32-38 | A stored value is returned as parsed, dict or not. A missing or unreadable file gives `{}`. |
| VoiceEngine.GetVoiceEnabled | voice_engine.py:49-50 | A missing or unreadable config gives `True`. It raises the `.get` AttributeError iff the config is a non-dict. Otherwise it gives the setting. |
| VoiceEngine.SavedConfig | voice_engine.py:41-56 | A successful save sets `voice_enabled`, adds no other key and keeps every other value. A failed write leaves the file as it was. |
| VoiceEngine.SetVoiceEnabled | voice_engine.py:53-56 | It raises the item-assignment TypeError iff the config is a non-dict. Otherwise the file becomes `SavedConfig`. |
| VoiceEngine.VoiceRoundTrip | voice_engine.py:41-56 | After a successful save, `get_voice_enabled` returns the saved value. A swallowed write failure leaves it unchanged. |
| VoiceEngine.LastSaveWins | voice_engine.py:53-56 | Two saves leave the file exactly as the second save alone would. |
| VoiceEngine.SinkOfLine | voice_engine.py:67-70 | A line names a sink iff it contains "bluez" case-insensitively and has two tab fields. The sink is the second field. |
| VoiceEngine.FirstSinkIndex | voice_engine.py:66-70 | This is the position of the first line that names a sink. No earlier line names one. |
| VoiceEngine.FirstSink | voice_engine.py:66-73 | The result is `None` iff no line names a sink. Otherwise it is the sink of the first line that does. |
| VoiceEngine.SkipsLineWithoutTab | voice_engine.py:67-70 | A BlueZ line without a tab is skipped and the scan goes on. |
| VoiceEngine.FieldsOfPactlLine | voice_engine.py:68-69 | The fields of `index<TAB>name<TAB>...` start with the index and the name. |
| VoiceEngine.SinkOfPactlLine | voice_engine.py:66-70 | Such a line, with a name that mentions BlueZ, names that sink. |
| VoiceEngine.BluezInPactlLine | voice_engine.py:67 | A line whose name field mentions "bluez" (lowercased) passes the `"bluez" in line.lower()` test. |
| VoiceEngine.DetectBtSink | voice_engine.py:59-73 | A failed `pactl` gives `None`. A sink found is a single field: no tab and no newline. |
| VoiceEngine.SinkHasNoNewline | voice_engine.py:66-70 | A sink found among newline-free lines contains no tab or newline. |
| VoiceEngine.Truncate | voice_engine.py:111 | The speech input is a prefix of the text, at most 4096 characters. |
| VoiceEngine.Playback | voice_engine.py:126-139 | `mpg123` is tried first. `ffplay` is tried iff `mpg123` is missing or exits non-zero. A missing `ffplay` gives "No audio player found ..." without raising. An `mpg123` exception raises its own text. A non-zero `ffplay` exit raises the CalledProcessError text of its command and status. An `ffplay` exception raises its own text. The steps are `PlayerSteps` and the outcome is `PlayerSignal`. |
| VoiceEngine.PlayFile | voice_engine.py:117-139 | A failed write raises its text before anything plays. Otherwise the steps are, in order: the write, the switch to the sink when it is a non-empty name, then the players as in `Playback`. |
| VoiceEngine.RunTts | voice_engine.py:98-147 | The trace is `TtsTrace` with the sink that `detect_bt_sink()` finds in the `pactl` output. No key gives only "OpenAI API key not configured". A failing speech request or temp file ends the run with its error right after the request. A failing write ends it with the write's text after the removal. The request holds at most 4096 characters of the text. `finished` ends the run iff a player played or `ffplay` is missing. The temp file is removed iff it was created, just before the last signal. The switch goes only to the detected sink, and happens iff that sink is a non-empty name and the players are reached. Request, temp file, write and switch come before `mpg123`, and `ffplay` follows straight after it. The last error carries the text of `mpg123`'s exception, of `ffplay`'s exit status or of `ffplay`'s exception. The only other error is the missing-player notice, two steps before the end. |
| VoiceEngine.RunTtsWith | voice_engine.py:98-147 | Once the sink is known, the run's steps are exactly `TtsTrace`, with every fact of `RunTts` stated for that sink. |
| VoiceEngine.SinkSwitch | voice_engine.py:122-124 | At most one switch. There is a switch iff the sink is present and non-empty, and then it goes to that sink. |
| VoiceEngine.TtsTraceShape | voice_engine.py:98-147 | A run ends with `finished` or an error, iff `TtsFinishes` for `finished`. It starts with the truncated request when a key is set. |
| VoiceEngine.TtsTraceSteps | voice_engine.py:115-142 | The temp file is created iff the speech arrived and the file could be made. It is removed iff created, just before the end. `mpg123` is tried iff the run reaches the players, and `ffplay` iff `mpg123` then falls back. A missing `ffplay` ends with the notice, the removal, then `finished`. |
| VoiceEngine.TtsRouting | voice_engine.py:121-124 | The only sink switched to is the given one, and only when it is non-empty and the players are reached. It is always switched to then. |
| VoiceEngine.TtsOrder | voice_engine.py:107-137 | In a run that reaches the players, the request, the temp file, the write and the switch come first, in that order. Then come `mpg123`, and `ffplay` next when it is used. |
| VoiceEngine.TtsFailureTexts | voice_engine.py:117-147 | A failing write gives the exact four-step trace ending with its text. The run ends with the error text of `mpg123`'s exception, `ffplay`'s CalledProcessError or `ffplay`'s exception. |
| VoiceEngine.TtsErrorsAtEnd | voice_engine.py:138-147 | Before the last signal, the only error possible is "No audio player found ...". It appears two steps before the end, exactly when no player was found. |
| VoiceEngine.JudgeRecording | voice_engine.py:184-206 | The thresholds apply in order: non-zero exit gives "Recording failed: ...". A missing file or one under 1000 bytes gives "No speech detected" and no transcription. A stripped transcript under 2 characters gives "No speech detected". Otherwise the stripped text is emitted. |
| VoiceEngine.RunStt | voice_engine.py:157-212 | Exactly one of `error`/`transcription_ready` is emitted. The steps are in the source order. Transcription happens iff the recording qualifies. A recorder that raises ends with its text, and so does a transcription that raises. The temp file is removed last whenever it still exists, on every path. |
| AlexTerminal.CommandWorkerRun | alex_terminal.py:41-46 | A truthy str error goes to `error_occurred`. Otherwise a str response goes to `response_ready`, and a `None` response arrives there as `""`. Any other value makes `emit` raise, and nothing is delivered. |
| AlexTerminal.SilentExactlyOnLostReplies | alex_terminal.py:41-46 | Fed by `send_message` as written, the worker is silent exactly on the lost replies. |
| AlexTerminal.ReplyExactlyOnSuccessOrBlankFailure | alex_terminal.py:41-46 | Fed by `send_message` as written, a failed command reaches `response_ready` iff it is a blank failure (an empty exception text, or a falsy `error`), and then as an empty reply. |
| AlexTerminal.NonStringErrorIsLost | alex_terminal.py:42-44 | A 500 reply with body `{"error": 5}` produces no signal. |
| AlexTerminal.EmptyErrorShownAsReply | alex_terminal.py:42-46 | A 500 reply with body `{"error": ""}` is shown as an empty reply from ALEX. |
| AlexTerminal.CorrectedAlwaysSignals | alex_terminal.py:41-46 | With the corrected classification the worker always signals: a response iff the reply succeeded. |
| AlexTerminal.RunHealthCheck | alex_terminal.py:60-68 | There are at most `retries` probes. Probes alternate with sleeps, with no sleep after the last probe. The worker stops at the first truthy result, so an empty dict counts as a failure. `failed` is emitted iff every attempt is falsy. `connected` is emitted iff the truthy result is a dict, and carries it. |
| AlexTerminal.PausesBetweenAttempts | alex_terminal.py:66-67 | Probe `j` is at step `2j`, and a sleep lies between each pair of probes. The run ends on a probe. |
| AlexTerminal.Minutes | alex_terminal.py:186 | The minutes shown are below 60. |
| AlexTerminal.UptimeDecomposition | alex_terminal.py:186 | The hours and minutes are the whole hours and the leftover whole minutes of the uptime. No other pair fits. |
| AlexTerminal.UptimeText | alex_terminal.py:186 | The text is `<hours>h <minutes>m`, and both numbers read back from it. |
| AlexTerminal.Uptime | alex_terminal.py:185 | A missing uptime is 0. An int or bool uptime is its value. Any other value makes `//` raise. |
| AlexTerminal.ClassifyInput | alex_terminal.py:223-233 | Input is blank iff it is all whitespace. Otherwise the text is the stripped input. It is a command iff it starts with `/`. |
| AlexTerminal.ClassifyStripped | alex_terminal.py:223 | Stripping is idempotent, so stripped input is classified as it stands. |
| AlexTerminal.ClassifyTranscript | alex_terminal.py:345-350 | A transcription (stripped, at least 2 characters) is sent as a command when it starts with `/`, and as a message otherwise. |
| AlexTerminal.CommandWord | alex_terminal.py:263-264 | The command word is a non-empty lowercased prefix of the line with no whitespace in it, ending at whitespace or at the end of the line. |
| AlexTerminal.ParseCommand | alex_terminal.py:262-287 | The command is `/voice`, `/clear` or `/status` iff the command word is exactly that word. Anything else is unknown and carries the word. |
| AlexTerminal.ArgumentsIgnored | alex_terminal.py:263-264 | Whatever follows the first whitespace does not change the command. |
| AlexTerminal.CommandIgnoresCase | alex_terminal.py:264 | A line and its lowercased form are the same command, so `/VOICE` is `/voice`. |
| AlexTerminal.ApplyCommand | alex_terminal.py:262-287 | `voice_on` flips iff `/voice`; the config is then saved and "Voice output ON/OFF" is appended for the new state. `/clear` empties the chat. `/status` appends "Checking ALEX status..." and is the only command that starts a one-shot health check. An unknown command appends "Unknown command: <word>" and then the list of available commands. Every command other than `/clear` keeps what the chat held. |
| AlexTerminal.TwoVoiceCommandsRestore | alex_terminal.py:266-268 | Two voice toggles restore `voice_on`, and the file holds the original setting. |
| AlexTerminal.ErrorNoticesReadBack | alex_terminal.py:258 | The `Error:` line, the `TTS error:` line (line 326) and the `Mic:` line (line 355) each carry their error after the fixed prefix, from which it reads back. |
| AlexTerminal.NamedNoticesReadBack | alex_terminal.py:205 | The `Bluetooth audio:` line and the `Unknown command:` line (line 286) carry the sink and the command word after the fixed prefix. |
| AlexTerminal.ConnectedNoticeReadBack | alex_terminal.py:187 | The connected line carries the uptime text in parentheses after its fixed prefix. |
| AlexTerminal.SinkLine | alex_terminal.py:203-207 | A non-empty sink is named in the "Bluetooth audio" line. No sink, or an empty one, gives the default-audio line. |
| AlexTerminal.StatusNotice | alex_terminal.py:291-297 | The report carries the uptime and the `rss_mb`, `telegram` and `redis` values as found, `'?'` when absent. |
| AlexTerminal.TtsErrors | alex_terminal.py:325-327 | A speech run adds system lines iff it emitted an error. |
| AlexTerminal.TtsErrorReported | alex_terminal.py:325-327 | Every error a speech run emits is shown as its own line. |
| AlexTerminal.Speech | alex_terminal.py:324-328 | The speech worker's run as the window sees it. Its error lines are those of its trace, which ends with the texts `FailureTexts` names. A run that does not finish shows exactly the error that ended it. One stopped for lack of a player shows only the missing-player line. Any other finished run shows nothing. A missing key, a failing request or a failing temp file gives exactly its one line. |
| AlexTerminal.TtsErrorsAt | alex_terminal.py:325-327 | A trace with one error shows exactly one line: that error. |
| AlexTerminal.TtsTraceErrors | alex_terminal.py:324-328 | For any sink, a run that does not finish shows only its last error. One that found no player shows only the missing-player line. Any other run shows nothing. |
| AlexTerminal.Recording | voice_engine.py:157-212 | The recording worker's one signal is an error or a transcription. A transcription arrives iff the recording qualifies and the stripped transcript has at least 2 characters. A missing key gives its error. A recorder or a transcription that raises gives its text. The transcription is the stripped transcript and classifies by its first character. |
| AlexTerminal.Terminal.constructor | alex_terminal.py:72-84 | `voice_on` is the saved setting. The input is enabled, no worker is running, and the chat opens with "Connecting to ALEX...". |
| AlexTerminal.Terminal.ToggleVoice | alex_terminal.py:302-307 | `voice_on` flips, is saved (a failed write is swallowed), and is reported as ON/OFF. This is the `/voice` command's effect. |
| AlexTerminal.Terminal.HandleCommand | alex_terminal.py:262-287 | The window's state changes exactly as `ApplyCommand` of the parsed command says. |
| AlexTerminal.Terminal.OnSend | alex_terminal.py:222-245 | Blank input changes nothing. A command clears the field, is handled as `ApplyCommand`, and sends nothing. A message clears the field, is shown, locks the input and goes to a new command worker. |
| AlexTerminal.Terminal.Speak | alex_terminal.py:320-328 | No new speech starts while one is running. Otherwise the text is spoken. |
| AlexTerminal.Terminal.TtsFinished | alex_terminal.py:324-328 | Each error of the speech run becomes a "TTS error" line. A run that does not finish adds exactly the line of the error that ended it. A run without a player adds only the missing-player line. Any other finished run adds nothing. A missing key, a failing request, temp file or write, an `mpg123` exception, a non-zero `ffplay` exit and an `ffplay` exception each add exactly their line with their text. |
| AlexTerminal.Terminal.OnResponse | alex_terminal.py:247-254 | The reply is shown and the input is unlocked. The reply is spoken iff the voice is on, the reply is non-empty and no speech is running. |
| AlexTerminal.Terminal.OnError | alex_terminal.py:256-260 | The error is shown as "Error: ..." and the input is unlocked. |
| AlexTerminal.Terminal.CommandFinished | alex_terminal.py:236-254 | With the corrected classification a finished command always unlocks the input. It shows the reply on success and the error otherwise. A successful non-empty reply is spoken iff the voice is on and no speech runs. Otherwise the speech state is unchanged. |
| AlexTerminal.Terminal.OnMic | alex_terminal.py:330-343 | No new recording starts while one is running. Otherwise exactly one recording worker is started. |
| AlexTerminal.Terminal.OnTranscription | alex_terminal.py:345-350 | The transcription fills the input field and is sent exactly as `OnSend` sends typed input. |
| AlexTerminal.Terminal.OnSttError | alex_terminal.py:352-355 | The error is shown as "Mic: ...". |
| AlexTerminal.Terminal.SttFinished | alex_terminal.py:330-355 | A transcription arrives iff the recording qualifies and the stripped transcript has at least 2 characters. A missing key gives its error. A recorder or a transcription that raises adds exactly the "Mic:" line of its text. An error ends in a "Mic:" line: nothing is sent and the input, the voice, the config and the pending checks stay as they were. A transcription is sent as a message, which leaves the voice, the config and the pending checks alone. When it starts with `/`, it acts as `ApplyCommand` of its command, sends nothing and leaves the input as it was. |
| AlexTerminal.Terminal.OnConnected | alex_terminal.py:183-214 | The status becomes online. A non-numeric uptime raises before anything is shown. Otherwise the uptime line and the speaker line are shown, "Welcome Lee" is spoken when the voice is on and no speech runs, and the poller starts. |
| AlexTerminal.Terminal.OnConnectionFailed | alex_terminal.py:216-219 | The status becomes offline and both hint lines are shown. |
| AlexTerminal.Terminal.StartupCheckFinished | alex_terminal.py:176-219 | The startup check (5 attempts, 2 s apart) fails iff all five results are falsy, and then shows both failure lines. A connection carries the first truthy reply. It shows the uptime and speaker lines, starts the poller, and greets (speech running with the welcome text) iff the voice is on and no speech runs. If the uptime raises, nothing is shown. A failure, a raise or a missing greeting leaves the speech state unchanged. A non-dict result changes nothing. |
| AlexTerminal.Terminal.OnStatusCheck | alex_terminal.py:289-298 | The status becomes online. The report shows the uptime and `rss_mb`/`telegram`/`redis` (`?` when absent). A non-numeric uptime or a non-dict `memory` raises first. |
| AlexTerminal.Terminal.StatusCheckFinished | alex_terminal.py:276-298 | A `/status` check makes one attempt. It shows "ALEX is offline" iff the result is falsy. Otherwise the status is online and the dict handed on is the health reply. `_on_status_check` raises iff the uptime is not numeric or `memory` is not a dict. When it does not raise, the report is shown as `StatusNotice`. When it raises, nothing is shown. |
| AlexTerminal.Terminal.OnAutonomousMessage | alex_terminal.py:364-367 | The message is shown as `[title] body` and the body is spoken when the voice is on and no speech runs. |

## Left out

- HTTP transport, the OpenAI calls, subprocesses, file and environment access: each outcome is an input value (`HttpOutcome`, `ConfigFile`, `QueueFile`, `TtsEnv`, `SttEnv`, the `pactl` output).
- Threads, Qt signal queuing, `msleep`/`time.sleep` and the `wait` shutdown: each worker runs to its end before its signals are delivered, in order. The sleeps appear only as `Pause` steps. A keyboard send while a command is in flight cannot happen, but a dictated send can, so the window state only keeps "input locked implies some command in flight".
- Widget construction, layout, HTML rendering, the welcome banner, `_append_thinking`/`_remove_thinking`, focus, the Voice and Mic button labels and enabled states, and `styles.py`: presentation only.
- The PID marker file: it has no bearing on the logic.
- `str.lower` is modelled for ASCII letters only. That is exact for "bluez" and the three commands, but other letters are not folded.
- JSON floats are not in the value type, so a float uptime is not modelled. `repr` of a dict or list inside the status line is shown as `...`.
- The CalledProcessError text for a negative exit status (a signal name in Python) is rendered as a plain number.
- AlexTerminal.CommandWorkerRun: follows PyQt5's conversion for `pyqtSignal(str)`. `None` arrives as the empty string, and any other non-str value makes `emit` raise TypeError. The model records only that nothing is delivered (`NoSignal`), not what the escaping exception does next.
- AlexTerminal.RunHealthCheck: a truthy non-dict result makes `pyqtSignal(dict)` refuse it, so `emit` raises. The model records only that neither signal arrives (`NotDelivered`).
- An exception escaping `QThread.run` or a slot aborts the whole process under PyQt5 5.5 or later: PyQt calls `qFatal`. The model does not capture the abort. A command worker's `NoSignal`, the health worker's `NotDelivered`, a poller tick's `escaped` and a slot's `Fault` only record that the exception occurred and stop there.
- `requests` is taken to be version 2.27 or later, where a body that is not JSON raises `requests.JSONDecodeError`, a `RequestException`. `health_check` and `get_terminal_messages` swallow it. With older versions it is a plain `ValueError`: `health_check` would then let it escape the health worker.
- `Terminal.constructor` requires the config to load as a dict: with any other JSON value, `get_voice_enabled` raises at startup and the window never exists. Toggling the voice then cannot raise, because only successful saves change the file.
- The TTS worker's `detect_bt_sink()` call is taken as `DetectBtSink` of the `pactl` output in `TtsEnv`. `_on_connected`'s call is the `sink` parameter that `OnConnected` receives.
- `AutonomousPoller.Run` follows a finite schedule of ticks. An endless loop with no `stop()` is not modelled.
- The read-then-clear race on the queue file between processes: it is concurrency, not sequential behaviour.

## Findings

| source | as written | input that shows it | evidently intended | confidence | as-written member | corrected member |
|---|---|---|---|---|---|---|
| alex_client.py:60-67 with alex_terminal.py:41-46 | A failed reply whose `error` is truthy but not a string passes through `send_message` unchanged. `CommandWorker.run` hands it to `error_occurred`, whose `pyqtSignal(str)` refuses it: `emit` raises and no signal reaches the window. | A 500 reply with body `{"error": 5}` | Every command is answered with a non-empty error string or a string response | not executed | AlexTerminal.NonStringErrorIsLost | AlexTerminal.CorrectedAlwaysSignals |
| alex_client.py:60-67 with alex_terminal.py:41-46 | `send_message` can return `(None, "")` or `(None, None)` for a failure: an exception with an empty message, or a reply whose `error` is empty or null. `CommandWorker.run` then takes the response branch, and the failure is shown as an empty reply from ALEX. | A 500 reply with body `{"error": ""}` | A failure is reported as an error, and only a successful reply is shown as a response | not executed | AlexTerminal.EmptyErrorShownAsReply | AlexTerminal.CorrectedAlwaysSignals |
