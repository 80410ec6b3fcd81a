/** The autonomous message poller: each tick turns the records of the
    control API and of the local queue file into `(title, body)` events, and
    drains the queue file. */
module Autonomous {
  import opened Wrappers
  import opened PyJson
  import opened AlexClient

  const DefaultTitle := "ALEX"

  /** One `message_received(title, body)` signal. */
  datatype Event = Event(title: string, body: string)

  /** What one record contributes: an event, nothing (its body is falsy), or
      an exception (the record is not a dict, or `emit` is handed a title or
      body that `pyqtSignal(str, str)` refuses: a value other than a str or
      `None`, which arrives as the empty string). */
  datatype Step = Emit(event: Event) | Skip | Fail

  /** `msg.get("title", "ALEX")` */
  function Title(m: map<string, Json>): (r: Json)
    ensures "title" in m ==> r == m["title"]
    ensures "title" !in m ==> r == Str(DefaultTitle)
  {
    Get(m, "title", Str(DefaultTitle))
  }

  /** `msg.get("body", msg.get("text", ""))`: `body` wins over `text` even
      when it is empty; `""` when neither is there. */
  function Body(m: map<string, Json>): (r: Json)
    ensures "body" in m ==> r == m["body"]
    ensures "body" !in m && "text" in m ==> r == m["text"]
    ensures "body" !in m && "text" !in m ==> r == Str("")
  {
    Get(m, "body", Get(m, "text", Str("")))
  }

  /** The loop body that both sources of `_poll` run for each record. */
  function RecordStep(msg: Json): (r: Step)
    ensures r.Skip? <==> msg.Object? && !Truthy(Body(msg.fields))
    ensures r.Emit? ==> msg.Object? && Body(msg.fields) == Str(r.event.body) && r.event.body != ""
    ensures r.Emit? ==> Title(msg.fields) == Str(r.event.title) || (Title(msg.fields) == Null && r.event.title == "")
    ensures msg.Object? && Truthy(Body(msg.fields)) && Body(msg.fields).Str? && (Title(msg.fields).Str? || Title(msg.fields).Null?) ==> r.Emit?
  {
    if !msg.Object? then Fail
    else
      var title := Title(msg.fields);
      var body := Body(msg.fields);
      if !Truthy(body) then Skip
      else if title.Str? && body.Str? then Emit(Event(title.s, body.s))
      else if title.Null? && body.Str? then Emit(Event("", body.s))
      else Fail
  }

  /** A record without a title is shown under "ALEX". */
  lemma DefaultTitleWhenAbsent(m: map<string, Json>, body: string)
    requires "title" !in m && Body(m) == Str(body) && body != ""
    ensures RecordStep(Object(m)) == Emit(Event(DefaultTitle, body))
  {
  }

  /** A dict record whose title (when present) and body are strings. */
  predicate WellFormed(msg: Json) {
    msg.Object? && Title(msg.fields).Str? && Body(msg.fields).Str?
  }

  /** No record of `msgs` raises. */
  predicate Completes(msgs: seq<Json>) {
    forall i :: 0 <= i < |msgs| ==> !RecordStep(msgs[i]).Fail?
  }

  /** The events the loop emits over `msgs`; an exception ends the loop, so the
      records after the first failing one contribute nothing. */
  function EventsOf(msgs: seq<Json>): (r: seq<Event>)
    ensures |r| <= |msgs|
    ensures forall k :: 0 <= k < |r| ==> r[k].body != ""
  {
    if msgs == [] then []
    else
      match RecordStep(msgs[0])
      case Fail => []
      case Skip => EventsOf(msgs[1..])
      case Emit(e) => [e] + EventsOf(msgs[1..])
  }

  /** The number of records of `msgs` with a non-empty body. */
  function NonEmptyBodies(msgs: seq<Json>): nat
    requires forall i :: 0 <= i < |msgs| ==> WellFormed(msgs[i])
  {
    if msgs == [] then 0
    else
      assert WellFormed(msgs[0]);
      assert forall i :: 0 <= i < |msgs| - 1 ==> msgs[1..][i] == msgs[i + 1];
      (if Body(msgs[0].fields).s != "" then 1 else 0) + NonEmptyBodies(msgs[1..])
  }

  /** A well-formed record is emitted exactly when its body is non-empty. */
  lemma WellFormedStep(msg: Json)
    requires WellFormed(msg)
    ensures RecordStep(msg).Emit? <==> Body(msg.fields).s != ""
    ensures !RecordStep(msg).Fail?
  {
  }

  /** Over records that do not raise, the events of a concatenation are the
      events of its parts, in order. */
  lemma {:induction false} EventsOfAppend(a: seq<Json>, b: seq<Json>)
    requires Completes(a)
    ensures EventsOf(a + b) == EventsOf(a) + EventsOf(b)
  {
    if a == [] {
      assert a + b == b;
    } else {
      assert (a + b)[0] == a[0];
      assert (a + b)[1..] == a[1..] + b;
      assert Completes(a[1..]) by {
        forall i | 0 <= i < |a| - 1 ensures !RecordStep(a[1..][i]).Fail? {
          assert a[1..][i] == a[i + 1];
        }
      }
      EventsOfAppend(a[1..], b);
      assert !RecordStep(a[0]).Fail?;
    }
  }

  /** A record that raises ends the loop: nothing after it is emitted. */
  lemma EventsStopAtFailure(a: seq<Json>, x: Json, rest: seq<Json>)
    requires Completes(a) && RecordStep(x).Fail?
    ensures EventsOf(a + [x] + rest) == EventsOf(a)
  {
    EventsOfAppend(a, [x] + rest);
    assert a + [x] + rest == a + ([x] + rest);
  }

  /** When every record is well formed, one event is emitted per record with
      a non-empty body. */
  lemma {:induction false} EventsCount(msgs: seq<Json>)
    requires forall i :: 0 <= i < |msgs| ==> WellFormed(msgs[i])
    ensures Completes(msgs)
    ensures |EventsOf(msgs)| == NonEmptyBodies(msgs)
  {
    forall i | 0 <= i < |msgs| ensures !RecordStep(msgs[i]).Fail? {
      WellFormedStep(msgs[i]);
    }
    if msgs != [] {
      WellFormedStep(msgs[0]);
      assert forall i :: 0 <= i < |msgs| - 1 ==> msgs[1..][i] == msgs[i + 1];
      EventsCount(msgs[1..]);
    }
  }

  /** `idx` says which record of `msgs` emitted each of `events`, in
      increasing record order. */
  predicate Emitters(msgs: seq<Json>, events: seq<Event>, idx: seq<nat>) {
    && |idx| == |events|
    && (forall k :: 0 <= k < |idx| ==> idx[k] < |msgs| && RecordStep(msgs[idx[k]]) == Emit(events[k]))
    && (forall k, l :: 0 <= k < l < |idx| ==> idx[k] < idx[l])
  }

  /** Emitters of the records after the first are emitters of the whole
      sequence, one position later. */
  lemma ShiftEmitters(msgs: seq<Json>, events: seq<Event>, tail: seq<nat>) returns (shifted: seq<nat>)
    requires msgs != [] && Emitters(msgs[1..], events, tail)
    ensures Emitters(msgs, events, shifted)
    ensures forall k :: 0 <= k < |shifted| ==> shifted[k] >= 1
  {
    shifted := seq(|tail|, k requires 0 <= k < |tail| => tail[k] + 1);
    assert forall k :: 0 <= k < |tail| ==> msgs[shifted[k]] == msgs[1..][tail[k]];
  }

  /** An emitting first record goes in front of the emitters of the rest. */
  lemma PrependEmitter(msgs: seq<Json>, e: Event, events: seq<Event>, shifted: seq<nat>)
    requires msgs != [] && RecordStep(msgs[0]) == Emit(e)
    requires Emitters(msgs, events, shifted)
    requires forall k :: 0 <= k < |shifted| ==> shifted[k] >= 1
    ensures Emitters(msgs, [e] + events, [0] + shifted)
  {
    var idx := [0] + shifted;
    forall k | 1 <= k < |idx|
      ensures idx[k] < |msgs| && RecordStep(msgs[idx[k]]) == Emit(([e] + events)[k])
    {
      assert idx[k] == shifted[k - 1] && ([e] + events)[k] == events[k - 1];
    }
  }

  /** Every event comes from a record, and events keep the records' order:
      the k-th event is emitted by record `idx[k]`, and `idx` increases. */
  lemma {:induction false} EventsKeepOrder(msgs: seq<Json>) returns (idx: seq<nat>)
    ensures Emitters(msgs, EventsOf(msgs), idx)
  {
    if msgs == [] {
      idx := [];
    } else {
      var step := RecordStep(msgs[0]);
      if step.Fail? {
        idx := [];
      } else {
        var tail := EventsKeepOrder(msgs[1..]);
        var shifted := ShiftEmitters(msgs, EventsOf(msgs[1..]), tail);
        if step.Skip? {
          idx := shifted;
        } else {
          PrependEmitter(msgs, step.event, EventsOf(msgs[1..]), shifted);
          idx := [0] + shifted;
        }
      }
    }
  }

  /** The state of `~/.alex/terminal-queue.json` as `_poll` finds it. */
  datatype QueueFile =
    | Missing        // the file does not exist
    | Unreadable     // reading raises OSError (caught)
    | Undecodable    // the bytes are not UTF-8: UnicodeDecodeError is not caught
    | Malformed      // json.loads raises JSONDecodeError (caught)
    | Holds(value: Json)

  /** What a tick does that is visible outside it, in order. */
  datatype PollAction = Delivered(event: Event) | QueueCleared

  function Deliver(events: seq<Event>): (actions: seq<PollAction>)
    ensures |actions| == |events|
    ensures forall k :: 0 <= k < |events| ==> actions[k] == Delivered(events[k])
  {
    if events == [] then [] else [Delivered(events[0])] + Deliver(events[1..])
  }

  lemma {:induction false} DeliverAppend(a: seq<Event>, b: seq<Event>)
    ensures Deliver(a + b) == Deliver(a) + Deliver(b)
  {
    if a != [] {
      assert (a + b)[1..] == a[1..] + b;
      DeliverAppend(a[1..], b);
    }
  }

  /** The records the API half of `_poll` loops over. A non-list `messages`
      yields no events: iterating a string or a dict gives strings, whose
      `.get` raises, and other values are not iterable. */
  function ApiRecords(o: HttpOutcome): (r: seq<Json>)
    ensures r != [] ==> OkObject(o)
    ensures OkObject(o) && Get(o.body.value.fields, "messages", List([])).List? ==>
              r == Get(o.body.value.fields, "messages", List([])).items
    ensures !(OkObject(o) && Get(o.body.value.fields, "messages", List([])).List?) ==> r == []
  {
    match GetTerminalMessages(o)
    case Throws(_) => []
    case Returns(v) => if v.List? then v.items else []
  }

  /** The result of one tick: its actions, the queue file afterwards, and
      whether an exception escaped `_poll`, which ends `run`. */
  datatype TickResult = TickResult(actions: seq<PollAction>, file: QueueFile, escaped: bool)

  /** The queue file needs draining: it parses to a non-empty list. */
  predicate HoldsRecords(f: QueueFile) {
    f.Holds? && f.value.List? && f.value.items != []
  }

  /** The file half of `_poll`: a queue holding records is cleared, and then
      its events are delivered; any other file is left as it is and yields
      nothing. */
  function FileTick(f: QueueFile, writable: bool): (r: TickResult)
    ensures r.actions != [] <==> HoldsRecords(f) && writable
    ensures r.actions != [] ==> r.actions[0] == QueueCleared && r.actions[1..] == Deliver(EventsOf(f.value.items))
    ensures r.file == if HoldsRecords(f) && writable then Holds(List([])) else f
    ensures r.escaped <==> f.Undecodable? || (HoldsRecords(f) && writable && !Completes(f.value.items))
  {
    if f.Undecodable? then TickResult([], f, true)
    else if HoldsRecords(f) && writable then
      TickResult([QueueCleared] + Deliver(EventsOf(f.value.items)), Holds(List([])), !Completes(f.value.items))
    else TickResult([], f, false)
  }

  /** One call of `_poll`: the API half, then the file half. */
  function Tick(o: HttpOutcome, f: QueueFile, writable: bool): TickResult {
    var fileHalf := FileTick(f, writable);
    TickResult(Deliver(EventsOf(ApiRecords(o))) + fileHalf.actions, fileHalf.file, fileHalf.escaped)
  }

  /** A queue holding records is cleared before any of them is delivered, and
      every API event comes before the clearing; afterwards the file holds
      `[]`. Any other file is left as it is and yields no file events. */
  lemma TickOrder(o: HttpOutcome, f: QueueFile, writable: bool)
    ensures var r := Tick(o, f, writable);
            var api := EventsOf(ApiRecords(o));
            && |r.actions| >= |api|
            && r.actions[..|api|] == Deliver(api)
            && (HoldsRecords(f) && writable ==>
                  && |r.actions| > |api|
                  && r.actions[|api|] == QueueCleared
                  && r.actions[|api| + 1..] == Deliver(EventsOf(f.value.items))
                  && r.file == Holds(List([])))
            && (!(HoldsRecords(f) && writable) ==> r.actions == Deliver(api) && r.file == f)
  {
    AppendParts(Deliver(EventsOf(ApiRecords(o))), FileTick(f, writable).actions);
  }

  /** Only an undecodable file, or a record of the file that raises, lets an
      exception escape; a failing API call is swallowed and the file half
      still runs. */
  lemma TickEscapes(o: HttpOutcome, f: QueueFile, writable: bool)
    ensures Tick(o, f, writable).escaped <==>
              f.Undecodable? || (HoldsRecords(f) && writable && !Completes(f.value.items))
    ensures Tick(o, f, writable).file == FileTick(f, writable).file
  {
  }

  /** One tick of `run`'s loop as the schedule describes it: the API outcome,
      whether the queue file can be written, and whether `stop()` is called
      while the tick runs. */
  datatype TickInput = TickInput(api: HttpOutcome, writable: bool, stopRequested: bool)

  /** The ticks `run` performs: one per schedule entry, threading the queue
      file, until `stop()` has been called or an exception escapes. */
  function Ticks(schedule: seq<TickInput>, f: QueueFile): seq<TickResult>
  {
    if schedule == [] then []
    else
      var r := Tick(schedule[0].api, f, schedule[0].writable);
      if r.escaped || schedule[0].stopRequested then [r]
      else [r] + Ticks(schedule[1..], r.file)
  }

  /** `run` performs at most one tick per schedule entry, and every tick but
      the last was neither stopped nor ended by an exception. */
  lemma {:induction false} TicksBounded(schedule: seq<TickInput>, f: QueueFile)
    ensures |Ticks(schedule, f)| <= |schedule|
    ensures schedule != [] ==> |Ticks(schedule, f)| >= 1
    ensures forall k :: 0 <= k < |Ticks(schedule, f)| - 1 ==>
              !schedule[k].stopRequested && !Ticks(schedule, f)[k].escaped
  {
    if schedule != [] {
      var r := Tick(schedule[0].api, f, schedule[0].writable);
      if !(r.escaped || schedule[0].stopRequested) {
        TicksBounded(schedule[1..], r.file);
        var rest := Ticks(schedule[1..], r.file);
        assert Ticks(schedule, f) == [r] + rest;
        forall k | 1 <= k < |Ticks(schedule, f)| - 1
          ensures !schedule[k].stopRequested && !Ticks(schedule, f)[k].escaped
        {
          assert schedule[k] == schedule[1..][k - 1];
          assert Ticks(schedule, f)[k] == rest[k - 1];
        }
      }
    }
  }

  /** The ticks from entry `i` on: the tick on `f`, then, unless it was
      stopped or raised, the ticks on the file it leaves. So the ticks
      performed so far, followed by that tick, are the ticks of the whole
      schedule exactly when it ends `run`, and a prefix of them otherwise. */
  lemma TicksFrom(schedule: seq<TickInput>, file: QueueFile, i: nat, current: QueueFile,
                  done: seq<TickResult>, r: TickResult)
    requires i < |schedule| && r == Tick(schedule[i].api, current, schedule[i].writable)
    requires Ticks(schedule, file) == done + Ticks(schedule[i..], current)
    ensures r.escaped || schedule[i].stopRequested ==> Ticks(schedule, file) == done + [r]
    ensures !(r.escaped || schedule[i].stopRequested) ==>
              Ticks(schedule, file) == (done + [r]) + Ticks(schedule[i + 1..], r.file)
  {
    assert schedule[i..][0] == schedule[i];
    assert schedule[i..][1..] == schedule[i + 1..];
    AppendAssoc(done, [r], Ticks(schedule[i + 1..], r.file));
  }

  lemma AppendParts<T>(a: seq<T>, b: seq<T>)
    ensures |a + b| == |a| + |b|
    ensures (a + b)[..|a|] == a && (a + b)[|a|..] == b
  {
  }

  lemma AppendAssoc<T>(a: seq<T>, b: seq<T>, c: seq<T>)
    ensures a + (b + c) == (a + b) + c
  {
  }

  class AutonomousPoller {
    /** `_running` */
    var running: bool

    constructor ()
      ensures !running
    {
      running := false;
    }

    /** `stop()` */
    method Stop()
      modifies this
      ensures !running
    {
      running := false;
    }

    /** The loop both halves of `_poll()` run over their records: each
        record's event is emitted in turn until a record raises. */
    method DeliverRecords(msgs: seq<Json>) returns (actions: seq<PollAction>, raised: bool)
      ensures actions == Deliver(EventsOf(msgs))
      ensures raised <==> !Completes(msgs)
    {
      actions := [];
      var i := 0;
      while i < |msgs|
        invariant 0 <= i <= |msgs|
        invariant Completes(msgs[..i])
        invariant actions == Deliver(EventsOf(msgs[..i]))
      {
        var step := RecordStep(msgs[i]);
        if step.Fail? {
          EventsStopAtFailure(msgs[..i], msgs[i], msgs[i + 1..]);
          assert msgs[..i] + [msgs[i]] + msgs[i + 1..] == msgs;
          return actions, true;
        }
        EventsOfAppend(msgs[..i], [msgs[i]]);
        assert msgs[..i + 1] == msgs[..i] + [msgs[i]];
        if step.Emit? {
          DeliverAppend(EventsOf(msgs[..i]), [step.event]);
          actions := actions + [Delivered(step.event)];
        }
        i := i + 1;
      }
      assert msgs[..i] == msgs;
      return actions, false;
    }

    /** The API half of `_poll()`: an exception ends its loop and is
        swallowed. */
    method PollApi(api: HttpOutcome) returns (actions: seq<PollAction>)
      ensures actions == Deliver(EventsOf(ApiRecords(api)))
    {
      var msgs := ApiRecords(api);
      var raised;
      actions, raised := DeliverRecords(msgs);
    }

    /** The file half of `_poll()`: a queue holding records is overwritten
        with `[]`, then its records are emitted; an exception other than
        JSONDecodeError or OSError escapes. */
    method PollFile(file: QueueFile, writable: bool) returns (r: TickResult)
      ensures r == FileTick(file, writable)
    {
      if file.Undecodable? {
        return TickResult([], file, true);
      }
      if !(HoldsRecords(file) && writable) {
        return TickResult([], file, false);
      }
      var delivered, raised := DeliverRecords(file.value.items);
      return TickResult([QueueCleared] + delivered, Holds(List([])), raised);
    }

    /** `_poll()`: the API endpoint first, then the queue file. */
    method Poll(api: HttpOutcome, file: QueueFile, writable: bool) returns (r: TickResult)
      ensures r == Tick(api, file, writable)
    {
      var fromApi := PollApi(api);
      var fromFile := PollFile(file, writable);
      r := TickResult(fromApi + fromFile.actions, fromFile.file, fromFile.escaped);
    }

    /** `run()`: sets the flag, then polls (and sleeps five seconds) while
        it is set. The schedule stands for the ticks observed. The flag ends
        cleared exactly when `stop()` was called during the last tick, even
        if that tick also raised. */
    method Run(schedule: seq<TickInput>, file: QueueFile) returns (results: seq<TickResult>)
      modifies this
      ensures results == Ticks(schedule, file)
      ensures 0 < |results| <= |schedule| || (results == [] && schedule == [])
      ensures !running <==> results != [] && schedule[|results| - 1].stopRequested
    {
      running := true;
      results := [];
      var current := file;
      var i := 0;
      while i < |schedule|
        invariant 0 <= i <= |schedule|
        invariant |results| == i && running
        invariant Ticks(schedule, file) == results + Ticks(schedule[i..], current)
        invariant i > 0 ==> !schedule[i - 1].stopRequested
      {
        var tick := schedule[i];
        var r := Poll(tick.api, current, tick.writable);
        TicksFrom(schedule, file, i, current, results, r);
        results := results + [r];
        if r.escaped || tick.stopRequested {
          // `stop()` clears the flag whether or not the tick raised.
          running := !tick.stopRequested;
          return;
        }
        current := r.file;
        i := i + 1;
      }
      assert schedule[i..] == [];
    }
  }
}
