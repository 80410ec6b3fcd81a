/** The terminal window's controller logic: the background command and
    health-check workers, input handling and slash commands, the uptime
    text, and the window's state machine (voice toggle, input locking while
    a command is in flight, one speech and one recording at a time).
    Widgets, HTML rendering and thread scheduling are not modelled: each
    signal a worker emits is delivered by calling the handler method. */
module AlexTerminal {
  import opened Wrappers
  import opened Text
  import opened PyJson
  import opened AlexClient
  import opened VoiceEngine

  // ---------------------------------------------------------------------
  // `CommandWorker.run()`
  // ---------------------------------------------------------------------

  /** What a command worker delivers to the window. A `pyqtSignal(str)`
      carries a str; `None` is converted to the empty string, and any other
      value makes `emit` raise TypeError inside the thread (`NoSignal`: nothing
      reaches the window). */
  datatype CommandSignal = ResponseReady(response: string) | ErrorOccurred(error: string) | NoSignal

  /** `CommandWorker.run()`: a truthy error goes to `error_occurred`,
      anything else sends the response to `response_ready`. */
  function CommandWorkerRun(r: SendResult): (s: CommandSignal)
    ensures s.ErrorOccurred? <==> Truthy(r.error) && r.error.Str?
    ensures s.ErrorOccurred? ==> Str(s.error) == r.error && s.error != ""
    ensures s.ResponseReady? <==> !Truthy(r.error) && (r.response.Str? || r.response.Null?)
    ensures s.ResponseReady? ==> if r.response.Null? then s.response == "" else Str(s.response) == r.response
  {
    if Truthy(r.error) then
      if r.error.Str? then ErrorOccurred(r.error.s) else NoSignal
    else if r.response.Str? then ResponseReady(r.response.s)
    else if r.response.Null? then ResponseReady("")
    else NoSignal
  }

  /** The outcomes whose command the window never hears about when the
      worker is fed `send_message` as written: an object reply whose
      `response` (on success) is present but neither a str nor `None`, or
      whose `error` (otherwise) is truthy but not a str. */
  predicate LostReply(o: HttpOutcome) {
    && o.Reply? && o.body.Parsed? && o.body.value.Object?
    && var fields := o.body.value.fields;
       if o.status == 200 && Truthy(Get(fields, "success", Null)) then
         "response" in fields && !(fields["response"].Str? || fields["response"].Null?)
       else
         "error" in fields && Truthy(fields["error"]) && !fields["error"].Str?
  }

  /** The failures `send_message` as written reports with a falsy error, so
      that the worker hands them to `response_ready` as an empty reply: an
      exception whose text is empty, or a failed object reply whose `error`
      is present but falsy. */
  predicate BlankFailure(o: HttpOutcome) {
    || (o.RequestError? && o.message == "")
    || (o.Reply? && o.body.NotJson? && o.body.message == "")
    || (&& o.Reply? && o.body.Parsed? && o.body.value.Object?
        && !(o.status == 200 && Truthy(Get(o.body.value.fields, "success", Null)))
        && "error" in o.body.value.fields && !Truthy(o.body.value.fields["error"]))
  }

  /** With `send_message` as written, the worker stays silent exactly on the
      lost replies; every other outcome reaches the window. */
  lemma SilentExactlyOnLostReplies(o: HttpOutcome)
    ensures CommandWorkerRun(SendMessage(o)).NoSignal? <==> LostReply(o)
  {
    match o {
      case Reply(status, Parsed(data)) =>
        if data.Object? && !(status == 200 && Truthy(Get(data.fields, "success", Null))) && "error" !in data.fields {
          assert SendMessage(o).error == Str(StatusText(status));
        }
      case _ =>
    }
  }

  /** With `send_message` as written, a failed command is shown as an empty
      reply exactly on the blank failures; a success is shown as its
      response. */
  lemma ReplyExactlyOnSuccessOrBlankFailure(o: HttpOutcome)
    ensures !Succeeded(o) ==> (CommandWorkerRun(SendMessage(o)).ResponseReady? <==> BlankFailure(o))
    ensures BlankFailure(o) ==> CommandWorkerRun(SendMessage(o)) == ResponseReady("")
  {
    match o {
      case Reply(status, Parsed(data)) =>
        if data.Object? && !(status == 200 && Truthy(Get(data.fields, "success", Null))) && "error" !in data.fields {
          assert SendMessage(o).error == Str(StatusText(status));
        }
      case _ =>
        assert TimeoutText != [] && ConnectText != [];
    }
  }

  /** A concrete lost reply: a 500 whose body is `{"error": 5}`. */
  lemma NonStringErrorIsLost()
    ensures CommandWorkerRun(SendMessage(Reply(500, Parsed(Object(map["error" := Int(5)]))))) == NoSignal
  {
    SilentExactlyOnLostReplies(Reply(500, Parsed(Object(map["error" := Int(5)]))));
  }

  /** A concrete blank failure: a 500 whose body is `{"error": ""}` is shown
      as an empty reply from ALEX. */
  lemma EmptyErrorShownAsReply()
    ensures CommandWorkerRun(SendMessage(Reply(500, Parsed(Object(map["error" := Str("")]))))) == ResponseReady("")
  {
    ReplyExactlyOnSuccessOrBlankFailure(Reply(500, Parsed(Object(map["error" := Str("")]))));
  }

  /** With the corrected classification every command is answered: a
      response exactly when the reply succeeded, an error otherwise. */
  lemma CorrectedAlwaysSignals(o: HttpOutcome)
    ensures !CommandWorkerRun(SendMessageCorrected(o)).NoSignal?
    ensures CommandWorkerRun(SendMessageCorrected(o)).ResponseReady? <==> Succeeded(o)
  {
  }

  // ---------------------------------------------------------------------
  // `HealthCheckWorker.run()`
  // ---------------------------------------------------------------------

  /** A step of the health-check worker: one `health_check()` call and what
      it returned, or a `time.sleep(delay)`. */
  datatype HealthStep = Probe(result: Json) | Pause(seconds: int)

  /** How the worker ends: `connected(result)`, `failed()`, or a truthy
      result that is not a dict, which `pyqtSignal(dict)` refuses (emit
      raises TypeError) so that neither signal arrives. */
  datatype HealthSignal = Connected(health: map<string, Json>) | Failed | NotDelivered

  /** The number of iterations of `range(retries)`. */
  function Iterations(retries: int): nat {
    if retries > 0 then retries else 0
  }

  /** The `k`-th step of a run that has not stopped yet: probes and sleeps
      alternate, starting with a probe. */
  function HealthStepAt(k: nat, delay: int, replies: nat -> HttpOutcome): HealthStep {
    if k % 2 == 0 then Probe(HealthCheck(replies(k / 2))) else Pause(delay)
  }

  /** `HealthCheckWorker.run()` for the given retry count and delay, where
      `replies(i)` is how the `i`-th request ends. */
  method RunHealthCheck(retries: int, delay: int, replies: nat -> HttpOutcome)
    returns (steps: seq<HealthStep>, attempts: nat, signal: HealthSignal)
    ensures attempts <= Iterations(retries)
    ensures |steps| == if attempts == 0 then 0 else 2 * attempts - 1
    ensures forall k :: 0 <= k < |steps| ==> steps[k] == HealthStepAt(k, delay, replies)
    ensures forall j :: 0 <= j < attempts - 1 ==> !Truthy(HealthCheck(replies(j)))
    ensures signal.Failed? <==> forall j :: 0 <= j < retries ==> !Truthy(HealthCheck(replies(j)))
    ensures signal.Failed? ==> attempts == Iterations(retries)
    ensures !signal.Failed? ==> attempts >= 1 && Truthy(HealthCheck(replies(attempts - 1)))
    ensures signal.Connected? <==> !signal.Failed? && HealthCheck(replies(attempts - 1)).Object?
    ensures signal.Connected? ==> Object(signal.health) == HealthCheck(replies(attempts - 1))
  {
    steps, attempts := [], 0;
    var i := 0;
    while i < retries
      invariant i <= Iterations(retries) && attempts == i
      invariant |steps| == if i == 0 then 0 else if i < retries then 2 * i else 2 * i - 1
      invariant forall k :: 0 <= k < |steps| ==> steps[k] == HealthStepAt(k, delay, replies)
      invariant forall j :: 0 <= j < i ==> !Truthy(HealthCheck(replies(j)))
    {
      var result := HealthCheck(replies(i));
      assert HealthStepAt(|steps|, delay, replies) == Probe(result);
      steps := steps + [Probe(result)];
      attempts := i + 1;
      if Truthy(result) {
        signal := if result.Object? then Connected(result.fields) else NotDelivered;
        return;
      }
      if i < retries - 1 {
        assert HealthStepAt(|steps|, delay, replies) == Pause(delay);
        steps := steps + [Pause(delay)];
      }
      i := i + 1;
    }
    signal := Failed;
  }

  /** Attempt `j` is the first whose result is truthy. */
  predicate FirstTruthy(replies: nat -> HttpOutcome, j: nat) {
    Truthy(HealthCheck(replies(j))) && forall i :: 0 <= i < j ==> !Truthy(HealthCheck(replies(i)))
  }

  /** The worker the window starts at launch: five attempts, two seconds
      apart. */
  const StartupRetries := 5
  const StartupDelay := 2

  /** The sleeps are the gaps between attempts: one fewer than the
      attempts, never after the last. */
  lemma {:induction false} PausesBetweenAttempts(steps: seq<HealthStep>, attempts: nat, delay: int, replies: nat -> HttpOutcome)
    requires |steps| == if attempts == 0 then 0 else 2 * attempts - 1
    requires forall k :: 0 <= k < |steps| ==> steps[k] == HealthStepAt(k, delay, replies)
    ensures |steps| > 0 ==> steps[|steps| - 1].Probe?
    ensures forall j :: 0 <= j < attempts ==> steps[2 * j] == Probe(HealthCheck(replies(j)))
    ensures forall j :: 0 <= j < attempts - 1 ==> steps[2 * j + 1] == Pause(delay)
  {
    forall j | 0 <= j < attempts ensures steps[2 * j] == Probe(HealthCheck(replies(j))) {
      assert (2 * j) % 2 == 0 && (2 * j) / 2 == j;
    }
    forall j | 0 <= j < attempts - 1 ensures steps[2 * j + 1] == Pause(delay) {
      assert (2 * j + 1) % 2 == 1;
    }
    if |steps| > 0 {
      assert |steps| - 1 == 2 * (attempts - 1);
      assert (2 * (attempts - 1)) % 2 == 0;
    }
  }

  // ---------------------------------------------------------------------
  // Uptime
  // ---------------------------------------------------------------------

  /** `uptime // 3600`; Python's `//` floors, which agrees with Dafny's `/`
      for a positive divisor. */
  function Hours(u: int): int {
    u / 3600
  }

  /** `(uptime % 3600) // 60`. */
  function Minutes(u: int): (m: int)
    ensures 0 <= m < 60
  {
    (u % 3600) / 60
  }

  /** The hours and minutes shown are the whole hours and the whole minutes
      left over, and no other pair of numbers fits. */
  lemma UptimeDecomposition(u: int, h: int, m: int)
    ensures Hours(u) * 3600 + Minutes(u) * 60 <= u < Hours(u) * 3600 + Minutes(u) * 60 + 60
    ensures 0 <= m < 60 && h * 3600 + m * 60 <= u < h * 3600 + m * 60 + 60 ==> h == Hours(u) && m == Minutes(u)
  {
    var q, r := u / 3600, u % 3600;
    assert u == q * 3600 + r && 0 <= r < 3600;
    assert r == (r / 60) * 60 + r % 60 && 0 <= r % 60 < 60;
    if 0 <= m < 60 && h * 3600 + m * 60 <= u < h * 3600 + m * 60 + 60 {
      assert h * 3600 <= u < h * 3600 + 3600;
      assert h == q;
      assert m * 60 <= r < m * 60 + 60;
    }
  }

  /** `f"{uptime // 3600}h {(uptime % 3600) // 60}m"`: the hours and the
      minutes can be read back from the text. */
  function UptimeText(u: int): (r: string)
    ensures var h := IntToString(Hours(u));
            && |r| == |h| + 2 + |IntToString(Minutes(u))| + 1
            && ParseInt(r[..|h|]) == Some(Hours(u))
            && r[|h|..|h| + 2] == "h "
            && ParseInt(r[|h| + 2..|r| - 1]) == Some(Minutes(u))
            && r[|r| - 1] == 'm'
  {
    var h, m := IntToString(Hours(u)), IntToString(Minutes(u));
    IntToStringRoundTrip(Hours(u));
    IntToStringRoundTrip(Minutes(u));
    var r := h + "h " + m + "m";
    assert r[..|h|] == h && r[|h| + 2..|r| - 1] == m;
    r
  }

  /** `health.get("uptime_seconds", 0)` as a number `//` accepts: an int,
      or a bool (an int in Python); `None` when the division raises. */
  function Uptime(health: map<string, Json>): (r: Option<int>)
    ensures "uptime_seconds" !in health ==> r == Some(0)
    ensures r.None? <==> "uptime_seconds" in health && !(health["uptime_seconds"].Int? || health["uptime_seconds"].Bool?)
    ensures r.Some? && "uptime_seconds" in health ==>
              health["uptime_seconds"] == Int(r.value) || health["uptime_seconds"] == Bool(r.value == 1)
  {
    match Get(health, "uptime_seconds", Int(0))
    case Int(i) => Some(i)
    case Bool(b) => Some(if b then 1 else 0)
    case _ => None
  }

  /** The exceptions a window slot raises on a malformed health report: the
      floor division refuses a non-number, `.get` a non-dict. */
  datatype Fault = NoFloorDivision(operand: Json) | NoGet(operand: Json)

  // ---------------------------------------------------------------------
  // Input and slash commands
  // ---------------------------------------------------------------------

  /** What `_on_send` makes of the input field: nothing, a slash command,
      or a message for ALEX; both carry the stripped text. */
  datatype Input = Blank | CommandLine(text: string) | Message(text: string)

  function ClassifyInput(raw: string): (r: Input)
    ensures r.Blank? <==> forall k :: 0 <= k < |raw| ==> IsSpace(raw[k])
    ensures !r.Blank? ==> r.text == Strip(raw) && r.text != [] && !IsSpace(r.text[0])
    ensures r.CommandLine? <==> !r.Blank? && r.text[0] == '/'
  {
    var text := Strip(raw);
    if text == [] then Blank else if text[0] == '/' then CommandLine(text) else Message(text)
  }

  /** Input that is already stripped (a transcription, say) is classified
      as it stands. */
  lemma ClassifyStripped(raw: string)
    ensures ClassifyInput(Strip(raw)) == ClassifyInput(raw)
  {
    StripIdempotent(raw);
  }

  /** A transcription (stripped text of at least two characters) is sent:
      as a command when it starts with `/`, as a message otherwise. */
  lemma ClassifyTranscript(t: string)
    requires |Strip(t)| >= 2
    ensures ClassifyInput(Strip(t)) == if Strip(t)[0] == '/' then CommandLine(Strip(t)) else Message(Strip(t))
  {
    StripIdempotent(t);
  }

  /** The recognised commands. */
  datatype Command = VoiceCommand | ClearCommand | StatusCommand | UnknownCommand(word: string)

  /** `cmd.split(None, 1)[0].lower()` of a stripped, non-empty line. */
  function CommandWord(line: string): (w: string)
    requires line != [] && !IsSpace(line[0])
    ensures 0 < |w| <= |line| && w == Lower(line[..|w|])
    ensures |w| < |line| ==> IsSpace(line[|w|])
    ensures forall k :: 0 <= k < |w| ==> !IsSpace(w[k])
  {
    var token := FirstToken(line);
    assert forall k :: 0 <= k < |token| ==> IsSpace(LowerChar(token[k])) == IsSpace(token[k]);
    Lower(token)
  }

  /** `_handle_command`'s dispatch on the command word. */
  function ParseCommand(line: string): (c: Command)
    requires line != [] && !IsSpace(line[0])
    ensures c == VoiceCommand <==> CommandWord(line) == "/voice"
    ensures c == ClearCommand <==> CommandWord(line) == "/clear"
    ensures c == StatusCommand <==> CommandWord(line) == "/status"
    ensures c.UnknownCommand? ==> c.word == CommandWord(line)
  {
    var word := CommandWord(line);
    if word == "/voice" then VoiceCommand
    else if word == "/clear" then ClearCommand
    else if word == "/status" then StatusCommand
    else UnknownCommand(word)
  }

  /** Only the first word decides: whatever follows the first whitespace
      does not change the command. */
  lemma ArgumentsIgnored(word: string, c: char, rest: string)
    requires word != [] && forall k :: 0 <= k < |word| ==> !IsSpace(word[k])
    requires IsSpace(c)
    ensures ParseCommand(word + [c] + rest) == ParseCommand(word)
  {
    FirstTokenOfWords(word, c, rest);
    assert FirstToken(word) == word;
  }

  /** The command word ignores letter case: a line and its lowered form
      (`/VOICE` and `/voice`) are the same command. */
  lemma CommandIgnoresCase(line: string)
    requires line != [] && !IsSpace(line[0])
    ensures Lower(line) != [] && !IsSpace(Lower(line)[0])
    ensures ParseCommand(Lower(line)) == ParseCommand(line)
  {
    assert IsSpace(Lower(line)[0]) == IsSpace(line[0]);
    FirstTokenLower(line);
    LowerIdempotent(FirstToken(line));
  }

  // ---------------------------------------------------------------------
  // The window
  // ---------------------------------------------------------------------

  /** The system lines the window writes; `NoticeText` gives their
      wording. */
  datatype Notice =
    | Connecting
    | ConnectedNotice(uptime: int)
    | BluetoothAudio(sink: string)
    | NoBluetooth
    | ConnectFailed
    | RetryHint
    | CommandError(error: string)
    | VoiceOutput(on: bool)
    | CheckingStatus
    | UnknownCommandNotice(word: string)
    | AvailableCommands
    | StatusReport(uptime: int, ram: Json, telegram: Json, redis: Json)
    | Offline
    | TtsError(error: string)
    | MicError(error: string)

  function OnOff(on: bool): string {
    if on then "ON" else "OFF"
  }

  /** The text of each system line. */
  function NoticeText(n: Notice): string
  {
    match n
    case Connecting => "Connecting to ALEX..."
    case ConnectedNotice(u) => Prefixed("Connected to ALEX (uptime: ", UptimeText(u) + ")")
    case BluetoothAudio(sink) => Prefixed("Bluetooth audio: ", sink)
    case NoBluetooth => "No Bluetooth speaker detected (using default audio)"
    case ConnectFailed => "Failed to connect to ALEX. Is the service running?"
    case RetryHint => "Retry with /status or restart ALEX: sudo systemctl restart alex"
    case CommandError(e) => Prefixed("Error: ", e)
    case VoiceOutput(on) => "Voice output " + OnOff(on)
    case CheckingStatus => "Checking ALEX status..."
    case UnknownCommandNotice(word) => Prefixed("Unknown command: ", word)
    case AvailableCommands => "Available: /voice, /clear, /status"
    case StatusReport(u, ram, telegram, redis) =>
      "ALEX Status: OK | Uptime: " + UptimeText(u) + " | RAM: " + Display(ram) + "MB"
      + " | Telegram: " + Display(telegram) + " | Redis: " + Display(redis)
    case Offline => "ALEX is offline"
    case TtsError(e) => Prefixed("TTS error: ", e)
    case MicError(e) => Prefixed("Mic: ", e)
  }

  /** An error line carries its error after a fixed prefix, from which it
      can be cut back out. */
  lemma ErrorNoticesReadBack(e: string)
    ensures var r := NoticeText(CommandError(e)); |r| >= 7 && r[..7] == "Error: " && r[7..] == e
    ensures var r := NoticeText(TtsError(e)); |r| >= 11 && r[..11] == "TTS error: " && r[11..] == e
    ensures var r := NoticeText(MicError(e)); |r| >= 5 && r[..5] == "Mic: " && r[5..] == e
  {
  }

  /** The speaker line and the unknown-command line carry the sink and the
      command word after a fixed prefix. */
  lemma NamedNoticesReadBack(name: string)
    ensures var r := NoticeText(BluetoothAudio(name)); |r| >= 17 && r[..17] == "Bluetooth audio: " && r[17..] == name
    ensures var r := NoticeText(UnknownCommandNotice(name)); |r| >= 17 && r[..17] == "Unknown command: " && r[17..] == name
  {
  }

  /** The connected line carries the uptime text in parentheses. */
  lemma ConnectedNoticeReadBack(u: int)
    ensures var r := NoticeText(ConnectedNotice(u));
            && |r| > 27 && r[..27] == "Connected to ALEX (uptime: "
            && r[27..|r| - 1] == UptimeText(u) && r[|r| - 1] == ')'
  {
    assert NoticeText(ConnectedNotice(u))[27..] == UptimeText(u) + ")";
  }

  /** `prefix + text`, from which both parts can be cut back out. */
  function Prefixed(prefix: string, text: string): (r: string)
    ensures |r| == |prefix| + |text|
    ensures r[..|prefix|] == prefix && r[|prefix|..] == text
  {
    prefix + text
  }

  /** A line of the chat area: the user's message, ALEX's reply, or a
      system line. */
  datatype Entry = User(text: string) | Alex(text: string) | System(notice: Notice)

  const WelcomeText := "Welcome Lee"

  /** The part of the window a slash command acts on. */
  datatype Controls = Controls(voiceOn: bool, config: ConfigFile, chat: seq<Entry>, pendingStatus: nat)

  /** What each command does: `/voice` flips and saves the setting and
      reports it, `/clear` empties the chat, `/status` announces and starts
      a one-shot health check, and anything else gets the usage lines. */
  function ApplyCommand(c: Command, writable: bool, before: Controls): (after: Controls)
    requires LoadConfig(before.config).Object?
    ensures LoadConfig(after.config).Object?
    ensures after.voiceOn == (before.voiceOn != (c == VoiceCommand))
    ensures c != VoiceCommand ==> after.config == before.config
    ensures c == VoiceCommand ==> after.config == SavedConfig(before.config, after.voiceOn, writable)
    ensures c == VoiceCommand && writable ==> VoiceSetting(after.config) == Bool(after.voiceOn)
    ensures c == ClearCommand ==> after.chat == []
    ensures c == VoiceCommand ==> after.chat == before.chat + [System(VoiceOutput(after.voiceOn))]
    ensures c == StatusCommand ==> after.chat == before.chat + [System(CheckingStatus)]
    ensures c.UnknownCommand? ==> after.chat == before.chat + [System(UnknownCommandNotice(c.word)), System(AvailableCommands)]
    ensures c != ClearCommand ==> |after.chat| > |before.chat| && after.chat[..|before.chat|] == before.chat
    ensures after.pendingStatus == before.pendingStatus + (if c == StatusCommand then 1 else 0)
  {
    match c
    case VoiceCommand =>
      var on := !before.voiceOn;
      before.(voiceOn := on, config := SavedConfig(before.config, on, writable),
              chat := before.chat + [System(VoiceOutput(on))])
    case ClearCommand =>
      before.(chat := [])
    case StatusCommand =>
      before.(chat := before.chat + [System(CheckingStatus)], pendingStatus := before.pendingStatus + 1)
    case UnknownCommand(word) =>
      before.(chat := before.chat + [System(UnknownCommandNotice(word)), System(AvailableCommands)])
  }

  /** Two `/voice` commands that both save restore the setting, and leave
      the file as one save of the original setting would. */
  lemma TwoVoiceCommandsRestore(s: Controls)
    requires LoadConfig(s.config).Object?
    ensures var twice := ApplyCommand(VoiceCommand, true, ApplyCommand(VoiceCommand, true, s));
            && twice.voiceOn == s.voiceOn
            && twice.config == SavedConfig(s.config, s.voiceOn, true)
            && VoiceSetting(twice.config) == Bool(s.voiceOn)
  {
    LastSaveWins(s.config, !s.voiceOn, s.voiceOn);
  }

  /** The line `_on_connected` writes about the speaker `detect_bt_sink`
      found. */
  function SinkLine(sink: Option<string>): (e: Entry)
    ensures e == System(NoBluetooth) <==> sink.None? || sink.value == ""
    ensures e != System(NoBluetooth) ==> e == System(BluetoothAudio(sink.value))
  {
    if sink.Some? && sink.value != "" then System(BluetoothAudio(sink.value)) else System(NoBluetooth)
  }

  /** `_on_status_check`'s report: the uptime and the `rss_mb`,
      `telegram` and `redis` values, `'?'` when absent. */
  function StatusNotice(uptime: int, mem: map<string, Json>, health: map<string, Json>): (n: Notice)
    ensures n.StatusReport? && n.uptime == uptime
    ensures n.ram == if "rss_mb" in mem then mem["rss_mb"] else Str("?")
    ensures n.telegram == if "telegram" in health then health["telegram"] else Str("?")
    ensures n.redis == if "redis" in health then health["redis"] else Str("?")
  {
    StatusReport(uptime, Get(mem, "rss_mb", Str("?")), Get(health, "telegram", Str("?")), Get(health, "redis", Str("?")))
  }

  /** The system lines a speech run adds: one per `error` it emitted. */
  function TtsErrors(trace: seq<Action>): (r: seq<Entry>)
    ensures r == [] <==> forall k :: 0 <= k < |trace| ==> !trace[k].Error?
    ensures forall e :: e in r ==> e.System?
  {
    if trace == [] then []
    else
      var rest := TtsErrors(trace[1..]);
      assert forall k :: 1 <= k < |trace| ==> trace[k] == trace[1..][k - 1];
      (if trace[0].Error? then [System(TtsError(trace[0].text))] else []) + rest
  }

  /** The `AlexTerminal` window. Each worker the window starts is recorded by
      the counter or flag that the method delivering its signals consumes. */
  class Terminal {
    var config: ConfigFile       // `~/.alex/terminal-config.json`
    var voiceOn: bool            // `voice_on`
    var online: bool             // the status dot
    var inputEnabled: bool       // the input field and the Send button
    var draft: string            // the input field's text
    var inFlight: nat            // command workers that have not signalled yet
    var pendingStatus: nat       // `/status` health workers that have not finished
    var ttsActive: bool          // `_tts_worker` is running
    var ttsText: string          // what it is speaking
    var sttActive: bool          // `_stt_worker` is running
    var recordings: nat          // recording workers started
    var pollerStarted: bool      // `_start_poller()` has run
    var chat: seq<Entry>         // the chat area
    var sent: seq<string>        // messages handed to command workers
    var spoken: seq<string>      // texts handed to speech workers

    /** The input is locked only while some command is in flight, and the
        config stays a dict so that toggling the voice can save it. */
    predicate Valid()
      reads this
    {
      (inFlight == 0 ==> inputEnabled) && LoadConfig(config).Object?
    }

    /** `AlexTerminal.__init__`: read the voice setting, then start the
        startup health check. */
    constructor(config: ConfigFile)
      requires LoadConfig(config).Object?
      ensures Valid()
      ensures this.config == config && voiceOn == Truthy(VoiceSetting(config))
      ensures !online && inputEnabled && draft == "" && inFlight == 0 && pendingStatus == 0
      ensures !ttsActive && !sttActive && !pollerStarted
      ensures chat == [System(Connecting)] && sent == [] && spoken == [] && recordings == 0
    {
      this.config := config;
      voiceOn := Truthy(VoiceSetting(config));
      online, inputEnabled, draft, inFlight, pendingStatus := false, true, "", 0, 0;
      ttsActive, ttsText, sttActive, recordings, pollerStarted := false, "", false, 0, false;
      chat, sent, spoken := [System(Connecting)], [], [];
    }

    /** The fields a slash command acts on. */
    function ControlsNow(): Controls
      reads this`voiceOn, this`config, this`chat, this`pendingStatus
    {
      Controls(voiceOn, config, chat, pendingStatus)
    }

    /** The Voice button and `/voice`: flip the setting, save it (a failed
        write is swallowed), and say so. */
    method ToggleVoice(writable: bool)
      requires Valid()
      modifies this`voiceOn, this`config, this`chat
      ensures Valid()
      ensures voiceOn == !old(voiceOn)
      ensures config == SavedConfig(old(config), voiceOn, writable)
      ensures writable ==> VoiceSetting(config) == Bool(voiceOn)
      ensures !writable ==> config == old(config)
      ensures chat == old(chat) + [System(VoiceOutput(voiceOn))]
      ensures ControlsNow() == ApplyCommand(VoiceCommand, writable, old(ControlsNow()))
    {
      voiceOn := !voiceOn;
      config := SavedConfig(config, voiceOn, writable);
      chat := chat + [System(VoiceOutput(voiceOn))];
    }

    /** `_handle_command(line)` for a stripped line. */
    method HandleCommand(line: string, writable: bool)
      requires Valid() && line != [] && !IsSpace(line[0])
      modifies this`voiceOn, this`config, this`chat, this`pendingStatus
      ensures Valid()
      ensures ControlsNow() == ApplyCommand(ParseCommand(line), writable, old(ControlsNow()))
    {
      var command := ParseCommand(line);
      match command
      case VoiceCommand =>
        ToggleVoice(writable);
      case ClearCommand =>
        chat := [];
      case StatusCommand =>
        chat := chat + [System(CheckingStatus)];
        pendingStatus := pendingStatus + 1;
      case UnknownCommand(word) =>
        chat := chat + [System(UnknownCommandNotice(word)), System(AvailableCommands)];
    }

    /** `_on_send()`: strip the input; ignore it when blank; run a slash
        command; otherwise show it, lock the input and start a command
        worker for it. */
    method OnSend(writable: bool) returns (input: Input)
      requires Valid()
      modifies this`draft, this`chat, this`inputEnabled, this`inFlight, this`sent
      modifies this`voiceOn, this`config, this`pendingStatus
      ensures Valid()
      ensures input == ClassifyInput(old(draft))
      ensures input.Blank? ==> draft == old(draft) && ControlsNow() == old(ControlsNow())
      ensures !input.Blank? ==> draft == ""
      ensures !input.Message? ==> sent == old(sent) && inFlight == old(inFlight) && inputEnabled == old(inputEnabled)
      ensures input.Message? ==>
                && sent == old(sent) + [input.text] && chat == old(chat) + [User(input.text)]
                && inFlight == old(inFlight) + 1 && !inputEnabled
                && voiceOn == old(voiceOn) && config == old(config) && pendingStatus == old(pendingStatus)
      ensures input.CommandLine? ==> ControlsNow() == ApplyCommand(ParseCommand(input.text), writable, old(ControlsNow()))
    {
      input := ClassifyInput(draft);
      if input.Blank? {
        return;
      }
      draft := "";
      if input.CommandLine? {
        HandleCommand(input.text, writable);
        return;
      }
      chat, inputEnabled, inFlight, sent := chat + [User(input.text)], false, inFlight + 1, sent + [input.text];
    }

    /** `_speak(text)`: start a speech worker unless one is running. */
    method Speak(text: string)
      modifies this`ttsActive, this`ttsText, this`spoken
      ensures ttsActive
      ensures old(ttsActive) ==> ttsText == old(ttsText) && spoken == old(spoken)
      ensures !old(ttsActive) ==> ttsText == text && spoken == old(spoken) + [text]
    {
      if ttsActive {
        return;
      }
      ttsActive, ttsText, spoken := true, text, spoken + [text];
    }

    /** The running speech worker ends, in the given surroundings: each
        `error` it emitted becomes a system line, so a run that does not
        finish shows the error that ended it. */
    method TtsFinished(env: TtsEnv) returns (trace: seq<Action>)
      requires ttsActive
      modifies this`ttsActive, this`chat
      ensures !ttsActive
      ensures chat == old(chat) + TtsErrors(trace)
      ensures trace != [] && (trace[|trace| - 1] == Finished <==> TtsFinishes(env))
      ensures !TtsFinishes(env) ==> trace[|trace| - 1].Error? && System(TtsError(trace[|trace| - 1].text)) in chat
      ensures !HasKey(env.apiKey) ==> chat == old(chat) + [System(TtsError(NoKeyText))]
      ensures HasKey(env.apiKey) && env.speech.Raises? ==> chat == old(chat) + [System(TtsError(env.speech.message))]
      ensures HasKey(env.apiKey) && env.speech.Done? && env.tempFile.Raises? ==>
                chat == old(chat) + [System(TtsError(env.tempFile.message))]
      ensures ReachesPlayers(env) && FallsBack(env.mpg123) && env.ffplay.NotInstalled? ==>
                System(TtsError(NoPlayerText)) in chat
      ensures !TtsFinishes(env) ==> chat == old(chat) + [System(TtsError(trace[|trace| - 1].text))]
      ensures NoPlayerFound(env) ==> chat == old(chat) + [System(TtsError(NoPlayerText))]
      ensures TtsFinishes(env) && !NoPlayerFound(env) ==> chat == old(chat)
      ensures HasKey(env.apiKey) && env.speech.Done? && env.tempFile.Done? && env.write.Raises? ==>
                chat == old(chat) + [System(TtsError(env.write.message))]
      ensures ReachesPlayers(env) && env.mpg123.Fails? ==> chat == old(chat) + [System(TtsError(env.mpg123.message))]
      ensures ReachesPlayers(env) && FallsBack(env.mpg123) && env.ffplay.Exits? && env.ffplay.code != 0 ==>
                chat == old(chat) + [System(TtsError(CalledProcessErrorText(FfplayCommand(env.tempPath), env.ffplay.code)))]
      ensures ReachesPlayers(env) && FallsBack(env.mpg123) && env.ffplay.Fails? ==>
                chat == old(chat) + [System(TtsError(env.ffplay.message))]
    {
      var errors;
      trace, errors := Speech(ttsText, env);
      chat := chat + errors;
      ttsActive := false;
    }

    /** `_on_response(response)`: show the reply, unlock the input, and
        speak a non-empty reply when the voice is on. */
    method OnResponse(response: string)
      requires Valid() && inFlight > 0
      modifies this`chat, this`inputEnabled, this`inFlight, this`ttsActive, this`ttsText, this`spoken
      ensures Valid() && inputEnabled && inFlight == old(inFlight) - 1
      ensures chat == old(chat) + [Alex(response)]
      ensures voiceOn && response != "" && !old(ttsActive) ==> ttsActive && ttsText == response && spoken == old(spoken) + [response]
      ensures !(voiceOn && response != "" && !old(ttsActive)) ==>
                ttsActive == old(ttsActive) && ttsText == old(ttsText) && spoken == old(spoken)
    {
      chat := chat + [Alex(response)];
      inputEnabled := true;
      inFlight := inFlight - 1;
      if voiceOn && response != "" {
        Speak(response);
      }
    }

    /** `_on_error(error)`: report it and unlock the input. */
    method OnError(error: string)
      requires Valid() && inFlight > 0
      modifies this`chat, this`inputEnabled, this`inFlight
      ensures Valid() && inputEnabled && inFlight == old(inFlight) - 1
      ensures chat == old(chat) + [System(CommandError(error))]
    {
      chat := chat + [System(CommandError(error))];
      inputEnabled := true;
      inFlight := inFlight - 1;
    }

    /** The reply is spoken: it succeeded with a non-empty text, the voice
        is on and no speech is running. */
    static predicate ReplySpoken(reply: HttpOutcome, voiceOn: bool, ttsActive: bool) {
      Succeeded(reply) && voiceOn && SendMessageCorrected(reply).response.s != "" && !ttsActive
    }

    /** A command worker finishes with the given reply and its signal is
        delivered. With the corrected classification it always signals. */
    method CommandFinished(reply: HttpOutcome)
      requires Valid() && inFlight > 0
      modifies this`chat, this`inputEnabled, this`inFlight, this`ttsActive, this`ttsText, this`spoken
      ensures Valid() && inputEnabled && inFlight == old(inFlight) - 1
      ensures Succeeded(reply) ==> chat == old(chat) + [Alex(SendMessageCorrected(reply).response.s)]
      ensures !Succeeded(reply) ==> chat == old(chat) + [System(CommandError(SendMessageCorrected(reply).error.s))]
      ensures ReplySpoken(reply, voiceOn, old(ttsActive)) ==>
                ttsActive && ttsText == SendMessageCorrected(reply).response.s
                && spoken == old(spoken) + [SendMessageCorrected(reply).response.s]
      ensures !ReplySpoken(reply, voiceOn, old(ttsActive)) ==>
                ttsActive == old(ttsActive) && ttsText == old(ttsText) && spoken == old(spoken)
    {
      var signal := CommandWorkerRun(SendMessageCorrected(reply));
      CorrectedAlwaysSignals(reply);
      if signal.ResponseReady? {
        OnResponse(signal.response);
      } else {
        OnError(signal.error);
      }
    }

    /** `_on_mic()`: start a recording worker unless one is running. */
    method OnMic()
      modifies this`sttActive, this`recordings
      ensures sttActive
      ensures old(sttActive) ==> recordings == old(recordings)
      ensures !old(sttActive) ==> recordings == old(recordings) + 1
    {
      if sttActive {
        return;
      }
      sttActive, recordings := true, recordings + 1;
    }

    /** `_on_transcription(text)`: put the text in the input field and send
        it as if typed. */
    method OnTranscription(text: string, writable: bool) returns (input: Input)
      requires Valid()
      modifies this`draft, this`chat, this`inputEnabled, this`inFlight, this`sent
      modifies this`voiceOn, this`config, this`pendingStatus
      ensures Valid()
      ensures input == ClassifyInput(text)
      ensures input.Blank? ==> draft == text && ControlsNow() == old(ControlsNow())
      ensures !input.Blank? ==> draft == ""
      ensures !input.Message? ==> sent == old(sent) && inFlight == old(inFlight) && inputEnabled == old(inputEnabled)
      ensures input.Message? ==>
                && sent == old(sent) + [input.text] && chat == old(chat) + [User(input.text)]
                && inFlight == old(inFlight) + 1 && !inputEnabled
                && voiceOn == old(voiceOn) && config == old(config) && pendingStatus == old(pendingStatus)
      ensures input.CommandLine? ==> ControlsNow() == ApplyCommand(ParseCommand(input.text), writable, old(ControlsNow()))
    {
      draft := text;
      input := OnSend(writable);
    }

    /** `_on_stt_error(error)`. */
    method OnSttError(error: string)
      modifies this`chat
      ensures chat == old(chat) + [System(MicError(error))]
    {
      chat := chat + [System(MicError(error))];
    }

    /** The running recording worker ends, in the given surroundings, and
        its signal is delivered: an error becomes a `Mic:` line; a
        transcription, already stripped and at least two characters long,
        is sent as if typed. */
    method SttFinished(env: SttEnv, writable: bool) returns (trace: seq<Action>, signal: Action)
      requires Valid() && sttActive
      modifies this`sttActive, this`draft, this`chat, this`inputEnabled, this`inFlight, this`sent
      modifies this`voiceOn, this`config, this`pendingStatus
      ensures Valid() && !sttActive
      ensures signal.Error? || signal.Transcription?
      ensures signal.Transcription? <==> Transcribes(env) && env.transcript.Returns? && |Strip(env.transcript.value)| >= 2
      ensures !HasKey(env.apiKey) ==> signal == Error(NoKeyText)
      ensures HasKey(env.apiKey) && env.tempFile.Done? && env.recorder.RecorderRaises? ==>
                chat == old(chat) + [System(MicError(env.recorder.message))]
      ensures Transcribes(env) && env.transcript.Throws? ==> chat == old(chat) + [System(MicError(env.transcript.error))]
      ensures signal.Error? ==> chat == old(chat) + [System(MicError(signal.text))] && draft == old(draft)
      ensures signal.Error? ==> sent == old(sent) && inFlight == old(inFlight) && inputEnabled == old(inputEnabled)
      ensures signal.Error? ==> voiceOn == old(voiceOn) && config == old(config) && pendingStatus == old(pendingStatus)
      ensures signal.Transcription? ==>
                env.transcript.Returns? && signal.text == Strip(env.transcript.value) && |signal.text| >= 2 && draft == ""
      ensures signal.Transcription? && signal.text[0] != '/' ==>
                sent == old(sent) + [signal.text] && chat == old(chat) + [User(signal.text)]
                && inFlight == old(inFlight) + 1 && !inputEnabled
                && voiceOn == old(voiceOn) && config == old(config) && pendingStatus == old(pendingStatus)
      ensures signal.Transcription? && signal.text[0] == '/' ==>
                && sent == old(sent) && inFlight == old(inFlight) && inputEnabled == old(inputEnabled)
                && ControlsNow() == ApplyCommand(ParseCommand(signal.text), writable, old(ControlsNow()))
    {
      trace, signal := Recording(env);
      sttActive := false;
      if signal.Error? {
        OnSttError(signal.text);
      } else {
        var input := OnTranscription(signal.text, writable);
      }
    }

    /** `_on_connected(health)`: mark ALEX online, show the uptime and the
        speaker, greet when the voice is on, and start the poller. `sink` is
        what `detect_bt_sink()` returns (`DetectBtSink` of `pactl`'s
        output). A non-numeric uptime raises before anything is shown. */
    method OnConnected(health: map<string, Json>, sink: Option<string>) returns (raised: Option<Fault>)
      modifies this`online, this`chat, this`ttsActive, this`ttsText, this`spoken, this`pollerStarted
      ensures online
      ensures Uptime(health).None? ==>
                raised == Some(NoFloorDivision(health["uptime_seconds"])) && chat == old(chat) && pollerStarted == old(pollerStarted)
                && ttsActive == old(ttsActive) && ttsText == old(ttsText) && spoken == old(spoken)
      ensures Uptime(health).Some? ==>
                && raised == None && pollerStarted
                && chat == old(chat) + [System(ConnectedNotice(Uptime(health).value)),
                                        SinkLine(sink)]
      ensures Uptime(health).Some? && voiceOn && !old(ttsActive) ==>
                ttsActive && ttsText == WelcomeText && spoken == old(spoken) + [WelcomeText]
      ensures Uptime(health).Some? && !(voiceOn && !old(ttsActive)) ==>
                ttsActive == old(ttsActive) && ttsText == old(ttsText) && spoken == old(spoken)
    {
      online := true;
      var uptime := Uptime(health);
      if uptime.None? {
        return Some(NoFloorDivision(health["uptime_seconds"]));
      }
      chat := chat + [System(ConnectedNotice(uptime.value))];
      chat := chat + [SinkLine(sink)];
      if voiceOn {
        Speak(WelcomeText);
      }
      pollerStarted := true;
      raised := None;
    }

    /** `_on_connection_failed()`. */
    method OnConnectionFailed()
      modifies this`online, this`chat
      ensures !online
      ensures chat == old(chat) + [System(ConnectFailed), System(RetryHint)]
    {
      online := false;
      chat := chat + [System(ConnectFailed), System(RetryHint)];
    }

    /** The startup health worker runs to its end and its signal is
        delivered; `sink` is what `detect_bt_sink()` would return. */
    method StartupCheckFinished(replies: nat -> HttpOutcome, sink: Option<string>)
      returns (signal: HealthSignal, raised: Option<Fault>)
      modifies this`online, this`chat, this`ttsActive, this`ttsText, this`spoken, this`pollerStarted
      ensures signal.Failed? <==> forall j :: 0 <= j < StartupRetries ==> !Truthy(HealthCheck(replies(j)))
      ensures signal.Failed? ==>
                && !online && raised == None && pollerStarted == old(pollerStarted)
                && chat == old(chat) + [System(ConnectFailed), System(RetryHint)]
                && ttsActive == old(ttsActive) && ttsText == old(ttsText) && spoken == old(spoken)
      ensures signal.NotDelivered? ==> unchanged(this) && raised == None
      ensures signal.Connected? ==>
                && online && (raised == None <==> Uptime(signal.health).Some?)
                && exists j :: 0 <= j < StartupRetries && FirstTruthy(replies, j) && HealthCheck(replies(j)) == Object(signal.health)
      ensures signal.Connected? && raised.Some? ==>
                && chat == old(chat) && pollerStarted == old(pollerStarted)
                && ttsActive == old(ttsActive) && ttsText == old(ttsText) && spoken == old(spoken)
      ensures signal.Connected? && raised == None ==>
                && pollerStarted
                && chat == old(chat) + [System(ConnectedNotice(Uptime(signal.health).value)), SinkLine(sink)]
      ensures signal.Connected? && raised == None && voiceOn && !old(ttsActive) ==>
                ttsActive && ttsText == WelcomeText && spoken == old(spoken) + [WelcomeText]
      ensures signal.Connected? && raised == None && !(voiceOn && !old(ttsActive)) ==>
                ttsActive == old(ttsActive) && ttsText == old(ttsText) && spoken == old(spoken)
    {
      var steps, attempts;
      steps, attempts, signal := RunHealthCheck(StartupRetries, StartupDelay, replies);
      if signal.Connected? {
        assert FirstTruthy(replies, attempts - 1);
      }
      raised := None;
      match signal
      case Connected(health) =>
        raised := OnConnected(health, sink);
      case Failed =>
        OnConnectionFailed();
      case NotDelivered =>
    }

    /** `_on_status_check(health)`: the status report; a non-numeric uptime
        or a `memory` value that is not a dict raises. */
    method OnStatusCheck(health: map<string, Json>) returns (raised: Option<Fault>)
      modifies this`online, this`chat
      ensures online
      ensures Uptime(health).None? ==> raised == Some(NoFloorDivision(health["uptime_seconds"])) && chat == old(chat)
      ensures Uptime(health).Some? && !Get(health, "memory", Object(map[])).Object? ==>
                raised == Some(NoGet(Get(health, "memory", Object(map[])))) && chat == old(chat)
      ensures Uptime(health).Some? && Get(health, "memory", Object(map[])).Object? ==>
                raised == None
                && chat == old(chat) + [System(StatusNotice(Uptime(health).value, Get(health, "memory", Object(map[])).fields, health))]
    {
      online := true;
      var uptime := Uptime(health);
      var mem := Get(health, "memory", Object(map[]));
      if uptime.None? {
        return Some(NoFloorDivision(health["uptime_seconds"]));
      }
      if !mem.Object? {
        return Some(NoGet(mem));
      }
      chat := chat + [System(StatusNotice(uptime.value, mem.fields, health))];
      raised := None;
    }

    /** A `/status` health worker (one attempt, no delay) runs to its end
        and its signal is delivered. */
    method StatusCheckFinished(replies: nat -> HttpOutcome) returns (signal: HealthSignal, raised: Option<Fault>)
      requires pendingStatus > 0
      modifies this`online, this`chat, this`pendingStatus
      ensures pendingStatus == old(pendingStatus) - 1
      ensures signal.Failed? <==> !Truthy(HealthCheck(replies(0)))
      ensures signal.Failed? ==> !online && chat == old(chat) + [System(Offline)] && raised == None
      ensures signal.NotDelivered? ==> online == old(online) && chat == old(chat) && raised == None
      ensures signal.Connected? ==> online && Object(signal.health) == HealthCheck(replies(0))
      ensures signal.Connected? ==>
                (raised == None <==> Uptime(signal.health).Some? && Get(signal.health, "memory", Object(map[])).Object?)
      ensures signal.Connected? && raised == None ==>
                && Uptime(signal.health).Some? && Get(signal.health, "memory", Object(map[])).Object?
                && chat == old(chat) + [System(StatusNotice(Uptime(signal.health).value,
                                                            Get(signal.health, "memory", Object(map[])).fields,
                                                            signal.health))]
      ensures signal.Connected? && raised.Some? ==> chat == old(chat)
    {
      var steps, attempts;
      steps, attempts, signal := RunHealthCheck(1, 0, replies);
      pendingStatus := pendingStatus - 1;
      raised := None;
      match signal
      case Connected(health) =>
        raised := OnStatusCheck(health);
      case Failed =>
        online := false;
        chat := chat + [System(Offline)];
      case NotDelivered =>
    }

    /** `_on_autonomous_message(title, body)`: show it and speak the body
        when the voice is on. */
    method OnAutonomousMessage(title: string, body: string)
      modifies this`chat, this`ttsActive, this`ttsText, this`spoken
      ensures chat == old(chat) + [Alex("[" + title + "] " + body)]
      ensures voiceOn && !old(ttsActive) ==> ttsActive && ttsText == body && spoken == old(spoken) + [body]
      ensures !(voiceOn && !old(ttsActive)) ==> ttsActive == old(ttsActive) && ttsText == old(ttsText) && spoken == old(spoken)
    {
      chat := chat + [Alex("[" + title + "] " + body)];
      if voiceOn {
        Speak(body);
      }
    }
  }

  /** The recording worker's run as the window sees it: one signal, an
      error or a transcription that the window sends as typed input. */
  method Recording(env: SttEnv) returns (trace: seq<Action>, signal: Action)
    ensures signal.Error? || signal.Transcription?
    ensures signal.Transcription? <==> Transcribes(env) && env.transcript.Returns? && |Strip(env.transcript.value)| >= 2
    ensures !HasKey(env.apiKey) ==> signal == Error(NoKeyText)
    ensures HasKey(env.apiKey) && env.tempFile.Done? && env.recorder.RecorderRaises? ==> signal == Error(env.recorder.message)
    ensures Transcribes(env) && env.transcript.Throws? ==> signal == Error(env.transcript.error)
    ensures signal.Transcription? ==>
              && env.transcript.Returns? && signal.text == Strip(env.transcript.value) && |signal.text| >= 2
              && ClassifyInput(signal.text) == if signal.text[0] == '/' then CommandLine(signal.text) else Message(signal.text)
  {
    trace, signal := RunStt(env);
    if signal.Transcription? {
      ClassifyTranscript(env.transcript.value);
    }
  }

  /** The speech worker's run as the window sees it: the trace and the
      system lines its errors become. */
  method Speech(text: string, env: TtsEnv) returns (trace: seq<Action>, errors: seq<Entry>)
    ensures errors == TtsErrors(trace)
    ensures trace != [] && (trace[|trace| - 1] == Finished <==> TtsFinishes(env))
    ensures !TtsFinishes(env) ==> trace[|trace| - 1].Error? && System(TtsError(trace[|trace| - 1].text)) in errors
    ensures !HasKey(env.apiKey) ==> errors == [System(TtsError(NoKeyText))]
    ensures HasKey(env.apiKey) && env.speech.Raises? ==> errors == [System(TtsError(env.speech.message))]
    ensures HasKey(env.apiKey) && env.speech.Done? && env.tempFile.Raises? ==>
              errors == [System(TtsError(env.tempFile.message))]
    ensures ReachesPlayers(env) && FallsBack(env.mpg123) && env.ffplay.NotInstalled? ==>
              System(TtsError(NoPlayerText)) in errors
    ensures !TtsFinishes(env) ==> errors == [System(TtsError(trace[|trace| - 1].text))]
    ensures NoPlayerFound(env) ==> errors == [System(TtsError(NoPlayerText))]
    ensures TtsFinishes(env) && !NoPlayerFound(env) ==> errors == []
    ensures FailureTexts(text, env, trace)
  {
    trace := RunTts(text, env);
    errors := TtsErrors(trace);
    TtsTraceErrors(text, env, DetectBtSink(env.pactl));
  }

  /** The lines a speech run adds: the error that ended it, or the
      missing-player notice of a run that finished without a player, or
      nothing. */
  lemma TtsTraceErrors(text: string, env: TtsEnv, sink: Option<string>)
    ensures var t := TtsTrace(text, env, sink);
            && (!TtsFinishes(env) ==> TtsErrors(t) == [System(TtsError(t[|t| - 1].text))])
            && (NoPlayerFound(env) ==> TtsErrors(t) == [System(TtsError(NoPlayerText))])
            && (TtsFinishes(env) && !NoPlayerFound(env) ==> TtsErrors(t) == [])
  {
    var t := TtsTrace(text, env, sink);
    TtsTraceShape(text, env, sink);
    TtsErrorsAtEnd(text, env, sink);
    if !TtsFinishes(env) {
      TtsErrorsAt(t, |t| - 1);
    } else if NoPlayerFound(env) {
      TtsErrorsAt(t, |t| - 3);
    }
  }

  /** A trace with a single `error` adds exactly its line. */
  lemma {:induction false} TtsErrorsAt(trace: seq<Action>, k: nat)
    requires k < |trace| && trace[k].Error?
    requires forall j :: 0 <= j < |trace| && j != k ==> !trace[j].Error?
    ensures TtsErrors(trace) == [System(TtsError(trace[k].text))]
  {
    assert forall j :: 0 <= j < |trace[1..]| ==> trace[1..][j] == trace[j + 1];
    if k > 0 {
      TtsErrorsAt(trace[1..], k - 1);
    }
  }

  /** Every error of a speech run is reported in the chat. */
  lemma {:induction false} TtsErrorReported(trace: seq<Action>, k: nat)
    requires k < |trace| && trace[k].Error?
    ensures System(TtsError(trace[k].text)) in TtsErrors(trace)
  {
    if k > 0 {
      assert trace[1..][k - 1] == trace[k];
      TtsErrorReported(trace[1..], k - 1);
    }
  }
}
