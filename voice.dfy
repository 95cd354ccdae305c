/** Voice input (`toggle_recording`): the worker thread sends a sequence of
    `VoiceMsg`s, decided here by the outcomes of the calls it makes into the
    audio and speech libraries; a 100 ms timer drains the queue each tick,
    writes transcriptions into the entry field and stops once a tick has seen
    an `Error` or `Finished`. */
module Voice {
  import opened Wrappers
  import opened Text
  import opened Toasts

  datatype VoiceMsg = Error(reason: string) | Transcription(text: string) | Transcribing | Finished

  /** What the speech recogniser did with a non-empty recording. */
  datatype WhisperOutcome =
    | ContextFailed(reason: string)          // `WhisperContext::new_with_params` failed
    | StatePanicked                          // `create_state().expect(..)` panicked
    | RunFailed(reason: string)              // `full(..)` failed
    | SegmentCountPanicked                   // `full_n_segments().expect(..)` panicked
    | Segments(texts: seq<Option<string>>)   // per segment, `None` where reading its text failed

  /** What the audio capture did, and then the recogniser. */
  datatype CaptureOutcome =
    | NoInputDevice
    | ConfigFailed(reason: string)
    | StreamFailed(reason: string)
    | PlayFailed(reason: string)
    | Captured(samples: nat, whisper: WhisperOutcome)

  /** The segments' texts that could be read, concatenated. */
  function Concat(texts: seq<Option<string>>): string {
    if |texts| == 0 then ""
    else (if texts[0].Some? then texts[0].value else "") + Concat(texts[1..])
  }

  /** The recognised text the worker sends: the concatenation of the segment
      texts with its leading and trailing whitespace removed. */
  function RecognisedText(texts: seq<Option<string>>): (r: string)
    ensures r == "" || (!IsSpace(r[0]) && !IsSpace(r[|r| - 1]))
  {
    Strip(Concat(texts))
  }

  /** The recognised text is the segment texts, joined, with only the
      whitespace around them removed; no other text is. */
  lemma RecognisedTextTrims(texts: seq<Option<string>>)
    ensures TrimOf(Concat(texts), RecognisedText(texts))
    ensures forall r :: TrimOf(Concat(texts), r) ==> r == RecognisedText(texts)
  {
    StripTrims(Concat(texts));
  }

  /** The messages the worker thread sends, in order. */
  function WorkerMessages(o: CaptureOutcome): seq<VoiceMsg> {
    match o
    case NoInputDevice => [Error("No input device found")]
    case ConfigFailed(e) => [Error("Input config error: " + e)]
    case StreamFailed(e) => [Error("Stream error: " + e)]
    case PlayFailed(e) => [Error("Stream play error: " + e)]
    case Captured(n, w) => if n == 0 then [Finished] else [Transcribing] + RecogniserMessages(w)
  }

  /** The messages after `Transcribing`. */
  function RecogniserMessages(w: WhisperOutcome): seq<VoiceMsg> {
    match w
    case ContextFailed(e) => [Error("Whisper error: " + e)]
    case StatePanicked => []
    case RunFailed(e) => [Error("Transcription error: " + e)]
    case SegmentCountPanicked => []
    case Segments(texts) =>
      var text := RecognisedText(texts);
      (if text != "" then [Transcription(text)] else []) + [Finished]
  }

  predicate IsTerminal(m: VoiceMsg) {
    m.Error? || m.Finished?
  }

  /** The worker panicked inside the recogniser and sends nothing more. */
  predicate Panicked(o: CaptureOutcome) {
    o.Captured? && o.samples > 0 && (o.whisper.StatePanicked? || o.whisper.SegmentCountPanicked?)
  }

  /** Only the last message, if any, is an `Error` or `Finished`. */
  predicate OnlyLastTerminal(ms: seq<VoiceMsg>) {
    forall i :: 0 <= i < |ms| - 1 ==> !IsTerminal(ms[i])
  }

  /** The recogniser's messages: one `Error` or `Finished` at the end unless
      it panics, and before it at most one transcription, never empty. */
  lemma RecogniserMessagesShape(w: WhisperOutcome)
    ensures var ms := RecogniserMessages(w);
      (w.StatePanicked? || w.SegmentCountPanicked? <==> ms == []) &&
      (ms != [] ==> IsTerminal(ms[|ms| - 1]) && OnlyLastTerminal(ms)) &&
      (forall i :: 0 <= i < |ms| && ms[i].Transcription? ==> ms[i].text != "" && i == |ms| - 2)
  {
    if w.Segments? {
      var text := RecognisedText(w.texts);
      if text != "" {
        assert RecogniserMessages(w) == [Transcription(text), Finished];
        LastTerminal([Transcription(text)], Finished);
      } else {
        assert RecogniserMessages(w) == [Finished];
        LastTerminal([], Finished);
      }
    }
  }

  /** Messages that are no `Error` or `Finished`, then one that is. */
  lemma LastTerminal(init: seq<VoiceMsg>, last: VoiceMsg)
    requires IsTerminal(last) && forall i :: 0 <= i < |init| ==> !IsTerminal(init[i])
    ensures var ms := init + [last]; IsTerminal(ms[|ms| - 1]) && OnlyLastTerminal(ms)
  {
    var ms := init + [last];
    assert forall i :: 0 <= i < |init| ==> ms[i] == init[i];
  }

  /** Unless it panics, the worker sends exactly one `Error` or `Finished`,
      and sends it last; an empty recording gives `[Finished]` alone; at most
      one transcription is sent, and never an empty one. */
  lemma WorkerMessagesShape(o: CaptureOutcome)
    ensures var ms := WorkerMessages(o);
      (!Panicked(o) <==> |ms| > 0 && IsTerminal(ms[|ms| - 1])) &&
      OnlyLastTerminal(ms) &&
      (o.Captured? && o.samples == 0 ==> ms == [Finished]) &&
      (forall i :: 0 <= i < |ms| && ms[i].Transcription? ==> ms[i].text != "" && i == |ms| - 2)
  {
    if o.Captured? && o.samples > 0 {
      var rs := RecogniserMessages(o.whisper);
      var ms := [Transcribing] + rs;
      assert WorkerMessages(o) == ms;
      RecogniserMessagesShape(o.whisper);
      forall i | 0 <= i < |ms| - 1 ensures !IsTerminal(ms[i]) {
        if i > 0 {
          assert ms[i] == rs[i - 1];
        }
      }
      forall i | 0 <= i < |ms| && ms[i].Transcription? ensures ms[i].text != "" && i == |ms| - 2 {
        assert i > 0 && ms[i] == rs[i - 1];
      }
    }
  }

  // ---------------------------------------------------------------------
  // The timer's drain

  /** What the drain changes: the entry text, the recording flag and the error notices. */
  datatype VoiceUi = VoiceUi(entry: string, recording: bool, toasts: seq<Toast>)

  /** The `match` on one message. */
  function Apply(u: VoiceUi, m: VoiceMsg): VoiceUi {
    match m
    case Error(e) => u.(recording := false, toasts := u.toasts + [Alert(e)])
    case Transcription(text) => u.(entry := if u.entry == "" then text else u.entry + " " + text)
    case Transcribing => u
    case Finished => u.(recording := false)
  }

  /** The `while let` over the queued messages of one tick. */
  function ApplyAll(u: VoiceUi, ms: seq<VoiceMsg>): VoiceUi
    decreases |ms|
  {
    if |ms| == 0 then u else ApplyAll(Apply(u, ms[0]), ms[1..])
  }

  /** `finished` at the end of a tick: the tick drained an `Error` or `Finished`. */
  predicate EndsDrain(ms: seq<VoiceMsg>) {
    exists i :: 0 <= i < |ms| && IsTerminal(ms[i])
  }

  /** The ticks in turn, until one returns `Break`. */
  function RunTicks(u: VoiceUi, ticks: seq<seq<VoiceMsg>>): VoiceUi
    decreases |ticks|
  {
    if |ticks| == 0 then u
    else
      var u' := ApplyAll(u, ticks[0]);
      if EndsDrain(ticks[0]) then u' else RunTicks(u', ticks[1..])
  }

  function Flatten(ticks: seq<seq<VoiceMsg>>): seq<VoiceMsg> {
    if |ticks| == 0 then [] else ticks[0] + Flatten(ticks[1..])
  }

  lemma {:induction false} ApplyAllAppend(u: VoiceUi, a: seq<VoiceMsg>, b: seq<VoiceMsg>)
    ensures ApplyAll(u, a + b) == ApplyAll(ApplyAll(u, a), b)
    decreases |a|
  {
    if |a| == 0 {
      assert a + b == b;
    } else {
      assert (a + b)[0] == a[0] && (a + b)[1..] == a[1..] + b;
      ApplyAllAppend(Apply(u, a[0]), a[1..], b);
    }
  }

  /** A transcription is put in an empty field as it is, and otherwise joined
      to what the field holds with one space; nothing else touches the field. */
  lemma {:induction false} EntryAfter(u: VoiceUi, ms: seq<VoiceMsg>)
    ensures ApplyAll(u, ms).entry == Joined(u.entry, Transcriptions(ms))
    decreases |ms|
  {
    if |ms| > 0 {
      var u' := Apply(u, ms[0]);
      EntryAfter(u', ms[1..]);
      var rest := Transcriptions(ms[1..]);
      if ms[0].Transcription? {
        var ts := [ms[0].text] + rest;
        assert Transcriptions(ms) == ts;
        assert ts[0] == ms[0].text && ts[1..] == rest;
      } else {
        assert Transcriptions(ms) == [] + rest == rest;
        assert u'.entry == u.entry;
      }
    }
  }

  /** The texts of the transcriptions among `ms`, in order. */
  function Transcriptions(ms: seq<VoiceMsg>): seq<string> {
    if |ms| == 0 then []
    else (if ms[0].Transcription? then [ms[0].text] else []) + Transcriptions(ms[1..])
  }

  /** The field after each text is added to `entry` in turn. */
  function Joined(entry: string, texts: seq<string>): string
    decreases |texts|
  {
    if |texts| == 0 then entry
    else Joined(if entry == "" then texts[0] else entry + " " + texts[0], texts[1..])
  }

  /** How the messages are split into ticks does not matter: as long as only
      the last message ends the drain, the ticks apply every message once, in
      order. */
  lemma {:induction false} TicksApplyAll(u: VoiceUi, ticks: seq<seq<VoiceMsg>>)
    requires OnlyLastTerminal(Flatten(ticks))
    ensures RunTicks(u, ticks) == ApplyAll(u, Flatten(ticks))
    decreases |ticks|
  {
    if |ticks| > 0 {
      var ms := Flatten(ticks);
      var t0 := ticks[0];
      var rest := Flatten(ticks[1..]);
      assert ms == t0 + rest;
      ApplyAllAppend(u, t0, rest);
      assert OnlyLastTerminal(rest) by {
        forall i | 0 <= i < |rest| - 1 ensures !IsTerminal(rest[i]) {
          assert rest[i] == ms[|t0| + i];
        }
      }
      if EndsDrain(t0) {
        var i :| 0 <= i < |t0| && IsTerminal(t0[i]);
        assert ms[i] == t0[i];
        assert i >= |ms| - 1;
        assert rest == [];
        assert ApplyAll(ApplyAll(u, t0), []) == ApplyAll(u, t0);
      } else {
        TicksApplyAll(ApplyAll(u, t0), ticks[1..]);
      }
    }
  }

  /** What a session leaves behind, started from an empty field while recording:
      a recognised text lands in the field; an error clears the flag and shows
      its reason; an empty recording only clears the flag. */
  lemma SessionResult(o: CaptureOutcome, ticks: seq<seq<VoiceMsg>>, toasts: seq<Toast>)
    requires Flatten(ticks) == WorkerMessages(o)
    requires !Panicked(o)
    ensures var u := RunTicks(VoiceUi("", true, toasts), ticks);
      !u.recording &&
      (o.Captured? && o.samples > 0 && o.whisper.Segments? ==>
        u.entry == RecognisedText(o.whisper.texts) && u.toasts == toasts) &&
      (o.Captured? && o.samples == 0 ==> u == VoiceUi("", false, toasts)) &&
      (WorkerMessages(o)[|WorkerMessages(o)| - 1].Error? ==>
        u.entry == "" && u.toasts == toasts + [Alert(WorkerMessages(o)[|WorkerMessages(o)| - 1].reason)])
  {
    WorkerMessagesShape(o);
    TicksApplyAll(VoiceUi("", true, toasts), ticks);
    DrainResult(o, toasts);
  }

  /** The same, for the worker's messages drained in one go. */
  lemma DrainResult(o: CaptureOutcome, toasts: seq<Toast>)
    requires !Panicked(o)
    ensures var ms := WorkerMessages(o);
      var u := ApplyAll(VoiceUi("", true, toasts), ms);
      |ms| > 0 && !u.recording &&
      (o.Captured? && o.samples > 0 && o.whisper.Segments? ==>
        u.entry == RecognisedText(o.whisper.texts) && u.toasts == toasts) &&
      (o.Captured? && o.samples == 0 ==> u == VoiceUi("", false, toasts)) &&
      (ms[|ms| - 1].Error? ==> u.entry == "" && u.toasts == toasts + [Alert(ms[|ms| - 1].reason)])
  {
    var ms := WorkerMessages(o);
    if o.Captured? && o.samples > 0 && o.whisper.Segments? {
      DrainSegments(o, toasts);
    } else if o.Captured? && o.samples == 0 {
      assert ms == [Finished];
      ApplyOne(VoiceUi("", true, toasts), Finished);
    } else {
      DrainError(o, toasts);
    }
  }

  /** A recording the recogniser read ends with its text in the field. */
  lemma DrainSegments(o: CaptureOutcome, toasts: seq<Toast>)
    requires o.Captured? && o.samples > 0 && o.whisper.Segments?
    ensures var ms := WorkerMessages(o);
      |ms| > 0 && ms[|ms| - 1] == Finished &&
      ApplyAll(VoiceUi("", true, toasts), ms) == VoiceUi(RecognisedText(o.whisper.texts), false, toasts)
  {
    var u0 := VoiceUi("", true, toasts);
    var rs := RecogniserMessages(o.whisper);
    ApplyCons(u0, Transcribing, rs);
    var text := RecognisedText(o.whisper.texts);
    if text != "" {
      assert rs == [Transcription(text)] + [Finished];
      ApplyCons(u0, Transcription(text), [Finished]);
      ApplyOne(VoiceUi(text, true, toasts), Finished);
    } else {
      assert rs == [Finished];
      ApplyOne(u0, Finished);
    }
  }

  /** A session that fails ends with one message, the `Error`, after `Transcribing` if any. */
  lemma DrainError(o: CaptureOutcome, toasts: seq<Toast>)
    requires !Panicked(o) && !(o.Captured? && (o.samples == 0 || o.whisper.Segments?))
    ensures var ms := WorkerMessages(o);
      |ms| > 0 && ms[|ms| - 1].Error? &&
      ApplyAll(VoiceUi("", true, toasts), ms) == VoiceUi("", false, toasts + [Alert(ms[|ms| - 1].reason)])
  {
    var u0 := VoiceUi("", true, toasts);
    var ms := WorkerMessages(o);
    if o.Captured? {
      var rs := RecogniserMessages(o.whisper);
      assert ms == [Transcribing] + rs;
      ApplyCons(u0, Transcribing, rs);
      assert rs == [rs[0]] && rs[0].Error?;
      ApplyOne(u0, rs[0]);
    } else {
      assert ms == [ms[0]] && ms[0].Error?;
      ApplyOne(u0, ms[0]);
    }
  }

  lemma ApplyOne(u: VoiceUi, m: VoiceMsg)
    ensures ApplyAll(u, [m]) == Apply(u, m)
  {
    assert [m][1..] == [];
  }

  lemma ApplyCons(u: VoiceUi, m: VoiceMsg, rest: seq<VoiceMsg>)
    ensures ApplyAll(u, [m] + rest) == ApplyAll(Apply(u, m), rest)
  {
    assert ([m] + rest)[1..] == rest;
  }
}
