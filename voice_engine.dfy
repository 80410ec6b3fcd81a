/** The voice engine: the terminal's small key-value config file, the parser
    of `pactl list short sinks` that finds the Bluetooth speaker, and the
    decision ladders of the speech (TTS) and transcription (STT) workers.
    Files, environment variables, subprocesses and the OpenAI calls are not
    modelled; what they return is an input. */
module VoiceEngine {
  import opened Wrappers
  import opened Text
  import opened PyJson

  // ---------------------------------------------------------------------
  // The config store: `~/.alex/terminal-config.json`
  // ---------------------------------------------------------------------

  /** The config file as `_load_config` finds it: absent, not readable as
      JSON text (OSError, UnicodeDecodeError, JSONDecodeError: all caught),
      or holding a parsed value, which need not be a dict. */
  datatype ConfigFile = NoConfig | Unparsable | Stored(value: Json)

  const VoiceKey := "voice_enabled"

  /** `_load_config()`: the parsed file, `{}` when there is none or it
      cannot be read. */
  function LoadConfig(f: ConfigFile): (v: Json)
    ensures f.Stored? ==> v == f.value
    ensures !f.Stored? ==> v == Object(map[])
  {
    if f.Stored? then f.value else Object(map[])
  }

  /** The setting a config that loads as a dict holds: its `voice_enabled`
      value, `True` when the key is missing. */
  function VoiceSetting(f: ConfigFile): (v: Json)
    requires LoadConfig(f).Object?
    ensures !f.Stored? ==> v == Bool(true)
    ensures f.Stored? && VoiceKey in f.value.fields ==> v == f.value.fields[VoiceKey]
    ensures f.Stored? && VoiceKey !in f.value.fields ==> v == Bool(true)
  {
    Get(LoadConfig(f).fields, VoiceKey, Bool(true))
  }

  /** `get_voice_enabled()`: the setting, or the AttributeError `.get`
      raises on a config that is not a dict. */
  function GetVoiceEnabled(f: ConfigFile): (r: Outcome<Json>)
    ensures !f.Stored? ==> r == Returns(Bool(true))
    ensures r.Throws? <==> f.Stored? && !f.value.Object?
    ensures r.Throws? ==> r.error == NoGetError(f.value)
    ensures r.Returns? ==> r.value == VoiceSetting(f)
  {
    var cfg := LoadConfig(f);
    if cfg.Object? then Returns(VoiceSetting(f)) else Throws(NoGetError(cfg))
  }

  /** `str(e)` of the TypeError raised by `cfg["voice_enabled"] = ...` on a
      value that is not a dict. */
  function ItemAssignError(v: Json): string {
    if v.List? then "list indices must be integers or slices, not str"
    else "'" + TypeName(v) + "' object does not support item assignment"
  }

  /** The file after saving `enabled` into a config that loads as a dict:
      the key set and every other key kept; a failed write is swallowed and
      leaves the file as it was. */
  function SavedConfig(f: ConfigFile, enabled: bool, writable: bool): (g: ConfigFile)
    requires LoadConfig(f).Object?
    ensures LoadConfig(g).Object?
    ensures !writable ==> g == f
    ensures writable ==>
              && g.Stored?
              && g.value.fields.Keys == LoadConfig(f).fields.Keys + {VoiceKey}
              && g.value.fields[VoiceKey] == Bool(enabled)
              && (forall k :: k in LoadConfig(f).fields && k != VoiceKey ==>
                    g.value.fields[k] == LoadConfig(f).fields[k])
  {
    if writable then Stored(Object(LoadConfig(f).fields[VoiceKey := Bool(enabled)])) else f
  }

  /** `set_voice_enabled(enabled)`: the config file afterwards, or the
      TypeError that setting a key raises on a config that is not a dict. */
  function SetVoiceEnabled(f: ConfigFile, enabled: bool, writable: bool): (r: Outcome<ConfigFile>)
    ensures r.Throws? <==> f.Stored? && !f.value.Object?
    ensures r.Throws? ==> r.error == ItemAssignError(f.value)
    ensures r.Returns? ==> r.value == SavedConfig(f, enabled, writable)
  {
    var cfg := LoadConfig(f);
    if !cfg.Object? then Throws(ItemAssignError(cfg)) else Returns(SavedConfig(f, enabled, writable))
  }

  /** After a save that succeeds, reading the setting gives back what was
      saved; a save that fails leaves the setting as it was. */
  lemma VoiceRoundTrip(f: ConfigFile, enabled: bool, writable: bool)
    requires SetVoiceEnabled(f, enabled, writable).Returns?
    ensures writable ==> GetVoiceEnabled(SetVoiceEnabled(f, enabled, writable).value) == Returns(Bool(enabled))
    ensures !writable ==> GetVoiceEnabled(SetVoiceEnabled(f, enabled, writable).value) == GetVoiceEnabled(f)
  {
  }

  /** Saving twice is saving the second value once: the first save leaves
      no trace in the file. */
  lemma LastSaveWins(f: ConfigFile, first: bool, second: bool)
    requires LoadConfig(f).Object?
    ensures SavedConfig(SavedConfig(f, first, true), second, true) == SavedConfig(f, second, true)
  {
    var m := LoadConfig(f).fields;
    assert m[VoiceKey := Bool(first)][VoiceKey := Bool(second)] == m[VoiceKey := Bool(second)];
  }

  // ---------------------------------------------------------------------
  // `detect_bt_sink()`
  // ---------------------------------------------------------------------

  /** The sink a line of `pactl list short sinks` names, when it is a BlueZ
      line with at least two tab-separated fields. */
  function SinkOfLine(line: string): (r: Option<string>)
    ensures r.Some? <==> Contains(Lower(line), "bluez") && |SplitOn(line, '\t')| >= 2
    ensures r.Some? ==> r.value == SplitOn(line, '\t')[1] && '\t' !in r.value
  {
    var parts := SplitOn(line, '\t');
    if Contains(Lower(line), "bluez") && |parts| >= 2 then Some(parts[1]) else None
  }

  /** The position of the first line that names a sink, `|lines|` when
      none does. */
  function FirstSinkIndex(lines: seq<string>): (i: nat)
    ensures i <= |lines|
    ensures forall j :: 0 <= j < i ==> SinkOfLine(lines[j]).None?
    ensures i < |lines| ==> SinkOfLine(lines[i]).Some?
  {
    if lines == [] || SinkOfLine(lines[0]).Some? then 0
    else
      var k := FirstSinkIndex(lines[1..]);
      assert forall j :: 1 <= j <= k ==> lines[j] == lines[1..][j - 1];
      k + 1
  }

  /** The scan over the lines: the first line that names a sink wins. */
  function FirstSink(lines: seq<string>): (r: Option<string>)
    ensures r.None? <==> forall i :: 0 <= i < |lines| ==> SinkOfLine(lines[i]).None?
    ensures r.Some? ==> r == SinkOfLine(lines[FirstSinkIndex(lines)])
  {
    if lines == [] then None
    else if SinkOfLine(lines[0]).Some? then SinkOfLine(lines[0])
    else
      var rest := FirstSink(lines[1..]);
      assert forall i :: 1 <= i < |lines| ==> lines[i] == lines[1..][i - 1];
      rest
  }

  /** A BlueZ line without a tab names no sink: the scan goes on past it. */
  lemma SkipsLineWithoutTab(line: string, rest: seq<string>)
    requires '\t' !in line
    ensures FirstSink([line] + rest) == FirstSink(rest)
  {
    assert ([line] + rest)[1..] == rest;
  }

  /** The tab-separated fields of `index<TAB>name<TAB>...` start with
      `index` and `name`. */
  lemma FieldsOfPactlLine(index: string, name: string, rest: string)
    requires '\t' !in index && '\t' !in name
    ensures var parts := SplitOn(index + ['\t'] + name + ['\t'] + rest, '\t');
            |parts| >= 2 && parts[0] == index && parts[1] == name
  {
    var tail := name + ['\t'] + rest;
    assert index + ['\t'] + name + ['\t'] + rest == index + ['\t'] + tail;
    SplitAfterPrefix(index, '\t', tail);
    SplitAfterPrefix(name, '\t', rest);
  }

  /** A line `index<TAB>name<TAB>...` whose name mentions BlueZ names that
      sink. */
  lemma SinkOfPactlLine(index: string, name: string, rest: string)
    requires '\t' !in index && '\t' !in name
    requires Contains(Lower(name), "bluez")
    ensures SinkOfLine(index + ['\t'] + name + ['\t'] + rest) == Some(name)
  {
    FieldsOfPactlLine(index, name, rest);
    BluezInPactlLine(index, name, rest);
  }

  /** A line around a name that mentions BlueZ mentions BlueZ. */
  lemma BluezInPactlLine(index: string, name: string, rest: string)
    requires Contains(Lower(name), "bluez")
    ensures Contains(Lower(index + ['\t'] + name + ['\t'] + rest), "bluez")
  {
    var head := index + ['\t'];
    var tail := ['\t'] + rest;
    assert index + ['\t'] + name + ['\t'] + rest == head + name + tail;
    LowerAppend(head, name);
    LowerAppend(head + name, tail);
    ContainsInMiddle(Lower(head), Lower(name), Lower(tail), "bluez");
  }

  /** `detect_bt_sink()` on what `pactl` printed (`None` when running it
      raised): the sink named by the first qualifying line of the stripped
      output, split at newlines. The name is a single field. */
  function DetectBtSink(pactl: Option<string>): (r: Option<string>)
    ensures pactl.None? ==> r.None?
    ensures r.Some? ==> '\t' !in r.value && '\n' !in r.value
  {
    if pactl.None? then None
    else
      var lines := SplitOn(Strip(pactl.value), '\n');
      SinkHasNoNewline(lines);
      FirstSink(lines)
  }

  /** A sink found among newline-free lines has no newline. */
  lemma SinkHasNoNewline(lines: seq<string>)
    requires forall l :: l in lines ==> '\n' !in l
    ensures FirstSink(lines).Some? ==> '\t' !in FirstSink(lines).value && '\n' !in FirstSink(lines).value
  {
    if FirstSink(lines).Some? {
      var i := FirstSinkIndex(lines);
      var name := FirstSink(lines).value;
      assert name in SplitOn(lines[i], '\t');
      forall c | c in name ensures c != '\n' {
        SplitOnChars(lines[i], '\t', name, c);
      }
    }
  }

  // ---------------------------------------------------------------------
  // The speech and transcription workers
  // ---------------------------------------------------------------------

  const TtsInputLimit := 4096
  const MinAudioSize := 1000
  const NoKeyText := "OpenAI API key not configured"
  const NoPlayerText := "No audio player found (install mpg123 or ffmpeg)"
  const NoSpeechText := "No speech detected"

  /** A call the worker makes whose result does not matter beyond whether it
      raised. */
  datatype Call = Done | Raises(message: string)

  /** How running an audio player ends: the program is not installed
      (FileNotFoundError), it exits with a status, or running it raises
      something else (a timeout, an OSError). */
  datatype Player = NotInstalled | Exits(code: int) | Fails(message: string)

  /** How running `arecord` ends. */
  datatype Recorder = RecorderRaises(message: string) | RecorderExits(code: int, stderr: string)

  /** What the TTS worker finds: `OPENAI_API_KEY`, the speech request, the
      temp file and its write, `pactl`'s output, and the two players. */
  datatype TtsEnv = TtsEnv(
    apiKey: Option<string>,
    speech: Call,
    tempFile: Call,
    tempPath: string,
    write: Call,
    pactl: Option<string>,
    mpg123: Player,
    ffplay: Player)

  /** What the STT worker finds: the key, the temp file, the recorder, the
      size of the recording (`None` when the file is gone) and the
      transcription request. */
  datatype SttEnv = SttEnv(
    apiKey: Option<string>,
    tempFile: Call,
    recorder: Recorder,
    audio: Option<int>,
    transcript: Outcome<string>)

  datatype PlayerName = Mpg123 | Ffplay

  /** The steps of a worker and the signals it emits, in order. */
  datatype Action =
    | RequestSpeech(input: string)
    | CreateTemp
    | WriteAudio
    | SwitchSink(sink: string)
    | TryPlayer(player: PlayerName)
    | RemoveTemp
    | RecordingStarted
    | Record
    | RecordingStopped
    | Transcribe
    | Transcription(text: string)   // `transcription_ready`
    | Error(text: string)            // `error`
    | Finished                       // `finished`

  /** `if not api_key`: the key is unset or empty. */
  predicate HasKey(key: Option<string>) {
    key.Some? && key.value != ""
  }

  /** `text[:4096]` */
  function Truncate(text: string): (s: string)
    ensures s <= text
    ensures |s| == if |text| <= TtsInputLimit then |text| else TtsInputLimit
  {
    if |text| <= TtsInputLimit then text else text[..TtsInputLimit]
  }

  /** The argv of the `ffplay` fallback. */
  function FfplayCommand(path: string): seq<string> {
    ["ffplay", "-nodisp", "-autoexit", "-loglevel", "quiet", path]
  }

  /** Python's `repr` of a list of strings without quotes or backslashes. */
  function ListRepr(items: seq<string>): string {
    "[" + ItemsRepr(items) + "]"
  }

  function ItemsRepr(items: seq<string>): string {
    if items == [] then ""
    else if |items| == 1 then "'" + items[0] + "'"
    else "'" + items[0] + "', " + ItemsRepr(items[1..])
  }

  /** `str()` of the CalledProcessError that `check=True` raises. */
  function CalledProcessErrorText(cmd: seq<string>, code: int): string {
    "Command '" + ListRepr(cmd) + "' returned non-zero exit status " + IntToString(code) + "."
  }

  /** `mpg123` did not play the file, so `ffplay` is tried. */
  predicate FallsBack(p: Player) {
    p.NotInstalled? || (p.Exits? && p.code != 0)
  }

  /** The TTS worker reaches the players: the key is set and the speech, the
      temp file and its write all succeed. */
  predicate ReachesPlayers(env: TtsEnv) {
    HasKey(env.apiKey) && env.speech.Done? && env.tempFile.Done? && env.write.Done?
  }

  /** `finished` is emitted: a player played the file, or `ffplay` is not
      installed either. */
  predicate TtsFinishes(env: TtsEnv) {
    && ReachesPlayers(env)
    && (env.mpg123 == Exits(0) || (FallsBack(env.mpg123) && (env.ffplay == Exits(0) || env.ffplay.NotInstalled?)))
  }

  /** Neither player is installed: the run reports it and still finishes. */
  predicate NoPlayerFound(env: TtsEnv) {
    ReachesPlayers(env) && FallsBack(env.mpg123) && env.ffplay.NotInstalled?
  }

  /** The steps inside the TTS worker's inner `try` block, between creating
      the temp file and its `finally` clause. */
  predicate InnerStep(a: Action) {
    a.WriteAudio? || a.SwitchSink? || a.TryPlayer? || a == Error(NoPlayerText)
  }

  /** `if bt_sink: set_default_sink(bt_sink)`: the switch to the speaker
      `sink` names, when it is a non-empty name. */
  function SinkSwitch(sink: Option<string>): (r: seq<Action>)
    ensures |r| <= 1
    ensures r != [] <==> sink.Some? && sink.value != ""
    ensures r != [] ==> r == [SwitchSink(sink.value)]
  {
    if sink.Some? && sink.value != "" then [SwitchSink(sink.value)] else []
  }

  /** The players tried, in order: `mpg123`, then `ffplay` when `mpg123`
      is missing or exits non-zero, then the notice when `ffplay` is
      missing too. */
  function PlayerSteps(env: TtsEnv): seq<Action> {
    [TryPlayer(Mpg123)]
    + if !FallsBack(env.mpg123) then []
      else [TryPlayer(Ffplay)] + if env.ffplay.NotInstalled? then [Error(NoPlayerText)] else []
  }

  /** The signal that ends a run reaching the players: `finished`, or
      `error` with `str(e)` of the exception that escaped the chain. */
  function PlayerSignal(env: TtsEnv): Action {
    match env.mpg123
    case Fails(message) => Error(message)
    case Exits(0) => Finished
    case _ =>
      match env.ffplay
      case NotInstalled => Finished
      case Exits(code) => if code == 0 then Finished else Error(CalledProcessErrorText(FfplayCommand(env.tempPath), code))
      case Fails(message) => Error(message)
  }

  /** Everything `TTSWorker.run()` does and emits speaking `text`, case by
      case: the key check, the speech request, the temp file and its write,
      the switch to `sink` (what `detect_bt_sink()` finds), the players,
      the removal of the temp file and the ending signal. */
  function TtsTrace(text: string, env: TtsEnv, sink: Option<string>): seq<Action> {
    var request := RequestSpeech(Truncate(text));
    if !HasKey(env.apiKey) then [Error(NoKeyText)]
    else if env.speech.Raises? then [request, Error(env.speech.message)]
    else if env.tempFile.Raises? then [request, Error(env.tempFile.message)]
    else if env.write.Raises? then [request, CreateTemp, RemoveTemp, Error(env.write.message)]
    else [request, CreateTemp] + ([WriteAudio] + SinkSwitch(sink) + PlayerSteps(env)) + [RemoveTemp, PlayerSignal(env)]
  }

  /** The player chain: `mpg123`, then `ffplay` when `mpg123` is missing or
      exits non-zero; only a missing `ffplay` is reported without raising. */
  method Playback(env: TtsEnv) returns (steps: seq<Action>, raised: Option<string>)
    ensures |steps| >= 1 && steps[0] == TryPlayer(Mpg123)
    ensures forall a :: a in steps ==> a.TryPlayer? || a == Error(NoPlayerText)
    ensures TryPlayer(Ffplay) in steps <==> FallsBack(env.mpg123)
    ensures raised.None? <==> env.mpg123 == Exits(0) || (FallsBack(env.mpg123) && (env.ffplay == Exits(0) || env.ffplay.NotInstalled?))
    ensures FallsBack(env.mpg123) && env.ffplay.NotInstalled? ==> steps[|steps| - 1] == Error(NoPlayerText)
    ensures env.mpg123.Fails? ==> raised == Some(env.mpg123.message)
    ensures FallsBack(env.mpg123) && env.ffplay.Exits? && env.ffplay.code != 0 ==>
              raised == Some(CalledProcessErrorText(FfplayCommand(env.tempPath), env.ffplay.code))
    ensures FallsBack(env.mpg123) && env.ffplay.Fails? ==> raised == Some(env.ffplay.message)
    ensures steps == PlayerSteps(env)
    ensures raised.None? <==> PlayerSignal(env) == Finished
    ensures raised.Some? ==> PlayerSignal(env) == Error(raised.value)
  {
    steps := [TryPlayer(Mpg123)];
    raised := None;
    if env.mpg123.Fails? {
      raised := Some(env.mpg123.message);
    } else if FallsBack(env.mpg123) {
      steps := steps + [TryPlayer(Ffplay)];
      match env.ffplay {
        case NotInstalled =>
          steps := steps + [Error(NoPlayerText)];
        case Exits(code) =>
          if code != 0 {
            raised := Some(CalledProcessErrorText(FfplayCommand(env.tempPath), code));
          }
        case Fails(message) =>
          raised := Some(message);
      }
    }
  }

  /** The inner `try` block: write the audio, switch to `sink` (what
      `detect_bt_sink()` found) when it is a non-empty name, play. */
  method PlayFile(env: TtsEnv, sink: Option<string>) returns (steps: seq<Action>, raised: Option<string>)
    ensures forall a :: a in steps ==> InnerStep(a)
    ensures env.write.Raises? ==> steps == [] && raised == Some(env.write.message)
    ensures TryPlayer(Mpg123) in steps <==> env.write.Done?
    ensures TryPlayer(Ffplay) in steps <==> env.write.Done? && FallsBack(env.mpg123)
    ensures raised.None? <==> env.write.Done? && (env.mpg123 == Exits(0) || (FallsBack(env.mpg123) && (env.ffplay == Exits(0) || env.ffplay.NotInstalled?)))
    ensures env.write.Done? && FallsBack(env.mpg123) && env.ffplay.NotInstalled? ==> steps != [] && steps[|steps| - 1] == Error(NoPlayerText)
    ensures forall a :: a in steps && a.SwitchSink? ==> Some(a.sink) == sink && a.sink != ""
    ensures env.write.Done? && sink.Some? && sink.value != "" ==> SwitchSink(sink.value) in steps
    ensures env.write.Done? ==> steps == [WriteAudio] + SinkSwitch(sink) + PlayerSteps(env)
    ensures env.write.Done? ==> (raised.None? <==> PlayerSignal(env) == Finished)
    ensures env.write.Done? && raised.Some? ==> PlayerSignal(env) == Error(raised.value)
  {
    if env.write.Raises? {
      return [], Some(env.write.message);
    }
    var played;
    played, raised := Playback(env);
    steps := [WriteAudio] + SinkSwitch(sink) + played;
    assert steps[|steps| - 1] == played[|played| - 1];
  }

  /** `TTSWorker.run()` speaking `text`. */
  method RunTts(text: string, env: TtsEnv) returns (trace: seq<Action>)
    ensures trace == TtsTrace(text, env, DetectBtSink(env.pactl))
    ensures |trace| >= 1 && (trace[|trace| - 1].Finished? || trace[|trace| - 1].Error?)
    ensures !HasKey(env.apiKey) ==> trace == [Error(NoKeyText)]
    ensures HasKey(env.apiKey) ==> trace[0] == RequestSpeech(Truncate(text))
    ensures HasKey(env.apiKey) && env.speech.Raises? ==> trace == [RequestSpeech(Truncate(text)), Error(env.speech.message)]
    ensures HasKey(env.apiKey) && env.speech.Done? && env.tempFile.Raises? ==>
              trace == [RequestSpeech(Truncate(text)), Error(env.tempFile.message)]
    ensures forall a :: a in trace && a.RequestSpeech? ==> |a.input| <= TtsInputLimit && a.input <= text
    ensures trace[|trace| - 1] == Finished <==> TtsFinishes(env)
    ensures CreateTemp in trace <==> HasKey(env.apiKey) && env.speech.Done? && env.tempFile.Done?
    ensures RemoveTemp in trace <==> CreateTemp in trace
    ensures RemoveTemp in trace ==> |trace| >= 2 && trace[|trace| - 2] == RemoveTemp
    ensures TryPlayer(Mpg123) in trace <==> ReachesPlayers(env)
    ensures TryPlayer(Ffplay) in trace <==> ReachesPlayers(env) && FallsBack(env.mpg123)
    ensures ReachesPlayers(env) && FallsBack(env.mpg123) && env.ffplay.NotInstalled? ==>
              |trace| >= 3 && trace[|trace| - 3..] == [Error(NoPlayerText), RemoveTemp, Finished]
    ensures RoutedToSpeaker(env, DetectBtSink(env.pactl), trace)
    ensures ReachesPlayers(env) ==> SpeakerBeforePlayers(text, env, DetectBtSink(env.pactl), trace)
    ensures FailureTexts(text, env, trace)
    ensures ErrorsOnlyAtEnd(env, trace)
  {
    trace := RunTtsWith(text, env, DetectBtSink(env.pactl));
  }

  /** `TTSWorker.run()` once `detect_bt_sink()` has found `sink`: each step
      as `TtsTrace` lists it. */
  method RunTtsWith(text: string, env: TtsEnv, sink: Option<string>) returns (trace: seq<Action>)
    ensures trace == TtsTrace(text, env, sink)
    ensures |trace| >= 1 && (trace[|trace| - 1].Finished? || trace[|trace| - 1].Error?)
    ensures !HasKey(env.apiKey) ==> trace == [Error(NoKeyText)]
    ensures HasKey(env.apiKey) ==> trace[0] == RequestSpeech(Truncate(text))
    ensures HasKey(env.apiKey) && env.speech.Raises? ==> trace == [RequestSpeech(Truncate(text)), Error(env.speech.message)]
    ensures HasKey(env.apiKey) && env.speech.Done? && env.tempFile.Raises? ==>
              trace == [RequestSpeech(Truncate(text)), Error(env.tempFile.message)]
    ensures forall a :: a in trace && a.RequestSpeech? ==> |a.input| <= TtsInputLimit && a.input <= text
    ensures trace[|trace| - 1] == Finished <==> TtsFinishes(env)
    ensures CreateTemp in trace <==> HasKey(env.apiKey) && env.speech.Done? && env.tempFile.Done?
    ensures RemoveTemp in trace <==> CreateTemp in trace
    ensures RemoveTemp in trace ==> |trace| >= 2 && trace[|trace| - 2] == RemoveTemp
    ensures TryPlayer(Mpg123) in trace <==> ReachesPlayers(env)
    ensures TryPlayer(Ffplay) in trace <==> ReachesPlayers(env) && FallsBack(env.mpg123)
    ensures ReachesPlayers(env) && FallsBack(env.mpg123) && env.ffplay.NotInstalled? ==>
              |trace| >= 3 && trace[|trace| - 3..] == [Error(NoPlayerText), RemoveTemp, Finished]
    ensures RoutedToSpeaker(env, sink, trace)
    ensures ReachesPlayers(env) ==> SpeakerBeforePlayers(text, env, sink, trace)
    ensures FailureTexts(text, env, trace)
    ensures ErrorsOnlyAtEnd(env, trace)
  {
    TtsTraceShape(text, env, sink);
    TtsTraceSteps(text, env, sink);
    TtsRouting(text, env, sink);
    TtsOrder(text, env, sink);
    TtsFailureTexts(text, env, sink);
    TtsErrorsAtEnd(text, env, sink);
    var request := RequestSpeech(Truncate(text));
    if !HasKey(env.apiKey) {
      return [Error(NoKeyText)];
    }
    if env.speech.Raises? {
      return [request, Error(env.speech.message)];
    }
    if env.tempFile.Raises? {
      return [request, Error(env.tempFile.message)];
    }
    var steps, raised := PlayFile(env, sink);
    // The `finally` clause removes the temp file before the signal that
    // ends the run.
    var last := if raised.Some? then Error(raised.value) else Finished;
    trace := [request, CreateTemp] + steps + [RemoveTemp, last];
    assert env.write.Done? ==> last == PlayerSignal(env);
  }

  /** The speech request, the temp file and the ending signal of a run. */
  lemma TtsTraceShape(text: string, env: TtsEnv, sink: Option<string>)
    ensures var t := TtsTrace(text, env, sink);
            && |t| >= 1 && (t[|t| - 1].Finished? || t[|t| - 1].Error?)
            && (HasKey(env.apiKey) ==> t[0] == RequestSpeech(Truncate(text)))
            && (forall a :: a in t && a.RequestSpeech? ==> |a.input| <= TtsInputLimit && a.input <= text)
            && (t[|t| - 1] == Finished <==> TtsFinishes(env))
  {
  }

  /** The temp file is created exactly when the speech arrives and the file
      can be made, and removed just before the ending signal; the players
      are tried exactly when the audio was written. */
  lemma TtsTraceSteps(text: string, env: TtsEnv, sink: Option<string>)
    ensures var t := TtsTrace(text, env, sink);
            && (CreateTemp in t <==> HasKey(env.apiKey) && env.speech.Done? && env.tempFile.Done?)
            && (RemoveTemp in t <==> CreateTemp in t)
            && (RemoveTemp in t ==> |t| >= 2 && t[|t| - 2] == RemoveTemp)
            && (TryPlayer(Mpg123) in t <==> ReachesPlayers(env))
            && (TryPlayer(Ffplay) in t <==> ReachesPlayers(env) && FallsBack(env.mpg123))
            && (ReachesPlayers(env) && FallsBack(env.mpg123) && env.ffplay.NotInstalled? ==>
                  |t| >= 3 && t[|t| - 3..] == [Error(NoPlayerText), RemoveTemp, Finished])
  {
  }

  /** Routing: the only sink switched to is `sink`, the non-empty name
      `detect_bt_sink` finds, and it is switched to whenever the players
      are reached. */
  predicate RoutedToSpeaker(env: TtsEnv, sink: Option<string>, t: seq<Action>) {
    && (forall a :: a in t && a.SwitchSink? ==> ReachesPlayers(env) && sink == Some(a.sink) && a.sink != "")
    && (ReachesPlayers(env) && sink.Some? && sink.value != "" ==> SwitchSink(sink.value) in t)
  }

  lemma TtsRouting(text: string, env: TtsEnv, sink: Option<string>)
    ensures RoutedToSpeaker(env, sink, TtsTrace(text, env, sink))
  {
    var t := TtsTrace(text, env, sink);
    if ReachesPlayers(env) {
      var pre := [RequestSpeech(Truncate(text)), CreateTemp, WriteAudio];
      var post := PlayerSteps(env) + [RemoveTemp, PlayerSignal(env)];
      assert t == pre + SinkSwitch(sink) + post;
      assert forall a :: a in post ==> !a.SwitchSink?;
    } else {
      assert forall a :: a in t ==> !a.SwitchSink?;
    }
  }

  /** The speech request, the temp file, the write and the switch to the
      speaker come before `mpg123`, and `ffplay` straight after it. */
  predicate SpeakerBeforePlayers(text: string, env: TtsEnv, sink: Option<string>, t: seq<Action>) {
    var n := 3 + |SinkSwitch(sink)|;
    && |t| > n
    && t[..n] == [RequestSpeech(Truncate(text)), CreateTemp, WriteAudio] + SinkSwitch(sink)
    && t[n] == TryPlayer(Mpg123)
    && (FallsBack(env.mpg123) ==> |t| > n + 1 && t[n + 1] == TryPlayer(Ffplay))
  }

  /** A run that reaches the players writes the file and routes the audio
      before playing it. */
  lemma TtsOrder(text: string, env: TtsEnv, sink: Option<string>)
    ensures ReachesPlayers(env) ==> SpeakerBeforePlayers(text, env, sink, TtsTrace(text, env, sink))
  {
  }

  /** The `error` that ends a run failing after the temp file exists
      carries `str(e)` of what raised: the write, `mpg123`, or `ffplay`'s
      exit status or exception. */
  predicate FailureTexts(text: string, env: TtsEnv, t: seq<Action>) {
    && |t| >= 1
    && (HasKey(env.apiKey) && env.speech.Done? && env.tempFile.Done? && env.write.Raises? ==>
          t == [RequestSpeech(Truncate(text)), CreateTemp, RemoveTemp, Error(env.write.message)])
    && (ReachesPlayers(env) && env.mpg123.Fails? ==> t[|t| - 1] == Error(env.mpg123.message))
    && (ReachesPlayers(env) && FallsBack(env.mpg123) && env.ffplay.Exits? && env.ffplay.code != 0 ==>
          t[|t| - 1] == Error(CalledProcessErrorText(FfplayCommand(env.tempPath), env.ffplay.code)))
    && (ReachesPlayers(env) && FallsBack(env.mpg123) && env.ffplay.Fails? ==> t[|t| - 1] == Error(env.ffplay.message))
  }

  lemma TtsFailureTexts(text: string, env: TtsEnv, sink: Option<string>)
    ensures FailureTexts(text, env, TtsTrace(text, env, sink))
  {
  }

  /** Apart from the ending signal, the only `error` is the missing-player
      notice, two steps before the end. */
  predicate ErrorsOnlyAtEnd(env: TtsEnv, t: seq<Action>) {
    forall k :: 0 <= k < |t| - 1 && t[k].Error? ==> k == |t| - 3 && NoPlayerFound(env) && t[k] == Error(NoPlayerText)
  }

  lemma TtsErrorsAtEnd(text: string, env: TtsEnv, sink: Option<string>)
    ensures ErrorsOnlyAtEnd(env, TtsTrace(text, env, sink))
  {
  }

  /** The temp file still exists when the STT worker's `finally` runs:
      nothing removed it before the recorder ran, and afterwards it exists
      exactly when its size can be read. */
  predicate RecordingKept(env: SttEnv) {
    env.recorder.RecorderRaises? || env.audio.Some?
  }

  /** The recording is long enough to transcribe: `arecord` exited with 0 and
      left at least `MinAudioSize` bytes. */
  predicate Transcribes(env: SttEnv) {
    && HasKey(env.apiKey) && env.tempFile.Done?
    && env.recorder.RecorderExits? && env.recorder.code == 0
    && env.audio.Some? && env.audio.value >= MinAudioSize
  }

  /** What follows a recorder that ran: the exit status, then the size of
      the recording, then the length of the stripped transcript decide the
      signal; only a long enough recording is transcribed. */
  method JudgeRecording(code: int, stderr: string, audio: Option<int>, transcript: Outcome<string>)
    returns (transcribed: bool, signal: Action)
    ensures transcribed <==> code == 0 && audio.Some? && audio.value >= MinAudioSize
    ensures signal.Error? || signal.Transcription?
    ensures code != 0 ==> signal == Error("Recording failed: " + stderr)
    ensures code == 0 && !(audio.Some? && audio.value >= MinAudioSize) ==> signal == Error(NoSpeechText)
    ensures transcribed && transcript.Throws? ==> signal == Error(transcript.error)
    ensures transcribed && transcript.Returns? && |Strip(transcript.value)| < 2 ==> signal == Error(NoSpeechText)
    ensures signal.Transcription? <==> transcribed && transcript.Returns? && |Strip(transcript.value)| >= 2
    ensures signal.Transcription? ==> signal.text == Strip(transcript.value)
  {
    if code != 0 {
      return false, Error("Recording failed: " + stderr);
    }
    if audio.None? || audio.value < MinAudioSize {
      return false, Error(NoSpeechText);
    }
    match transcript {
      case Throws(message) =>
        signal := Error(message);
      case Returns(t) =>
        var text := Strip(t);
        signal := if |text| < 2 then Error(NoSpeechText) else Transcription(text);
    }
    return true, signal;
  }

  /** `STTWorker.run()`: its steps, and the one signal (`error` or
      `transcription_ready`) that reports how it ended. */
  method RunStt(env: SttEnv) returns (trace: seq<Action>, signal: Action)
    ensures signal.Error? || signal.Transcription?
    ensures |trace| >= 1 && (trace[|trace| - 1] == signal || (|trace| >= 2 && trace[|trace| - 2] == signal))
    ensures forall k :: 0 <= k < |trace| && (trace[k].Error? || trace[k].Transcription?) ==> trace[k] == signal
    ensures !HasKey(env.apiKey) ==> trace == [signal] && signal == Error(NoKeyText)
    ensures HasKey(env.apiKey) && env.tempFile.Raises? ==> trace == [signal] && signal == Error(env.tempFile.message)
    ensures HasKey(env.apiKey) && env.tempFile.Done? ==> |trace| >= 3 && trace[..3] == [CreateTemp, RecordingStarted, Record]
    ensures RecordingStopped in trace <==> HasKey(env.apiKey) && env.tempFile.Done? && env.recorder.RecorderExits?
    ensures Transcribe in trace <==> Transcribes(env)
    ensures HasKey(env.apiKey) && env.tempFile.Done? && env.recorder.RecorderExits? && env.recorder.code != 0 ==>
              signal == Error("Recording failed: " + env.recorder.stderr)
    ensures && HasKey(env.apiKey) && env.tempFile.Done? && env.recorder.RecorderExits? && env.recorder.code == 0
            && !(env.audio.Some? && env.audio.value >= MinAudioSize)
            ==> signal == Error(NoSpeechText)
    ensures Transcribes(env) && env.transcript.Returns? && |Strip(env.transcript.value)| < 2 ==> signal == Error(NoSpeechText)
    ensures HasKey(env.apiKey) && env.tempFile.Done? && env.recorder.RecorderRaises? ==> signal == Error(env.recorder.message)
    ensures Transcribes(env) && env.transcript.Throws? ==> signal == Error(env.transcript.error)
    ensures signal.Transcription? <==> Transcribes(env) && env.transcript.Returns? && |Strip(env.transcript.value)| >= 2
    ensures signal.Transcription? ==> signal.text == Strip(env.transcript.value)
    ensures RemoveTemp in trace <==> CreateTemp in trace && RecordingKept(env)
    ensures RemoveTemp in trace ==> trace[|trace| - 1] == RemoveTemp
  {
    if !HasKey(env.apiKey) {
      signal := Error(NoKeyText);
      return [signal], signal;
    }
    if env.tempFile.Raises? {
      signal := Error(env.tempFile.message);
      return [signal], signal;
    }
    var middle: seq<Action>;
    match env.recorder {
      case RecorderRaises(message) =>
        middle, signal := [], Error(message);
      case RecorderExits(code, stderr) =>
        var transcribed;
        transcribed, signal := JudgeRecording(code, stderr, env.audio, env.transcript);
        middle := if transcribed then [RecordingStopped, Transcribe] else [RecordingStopped];
    }
    // The `finally` clause removes the recording if it is still there.
    var cleanup := if RecordingKept(env) then [RemoveTemp] else [];
    trace := [CreateTemp, RecordingStarted, Record] + middle + [signal] + cleanup;
  }
}
