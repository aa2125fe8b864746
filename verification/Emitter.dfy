/** Emitting events to sinks that may fail, one of them the trace recorder. */
module Emitter {
  import opened Prelude
  import opened Lines
  import opened Trace

  const TRACE_WRITE_ERROR: string := "TRACE_WRITE_ERROR"
  const EVENT_SINK_ERROR: string := "EVENT_SINK_ERROR"

  /** The events that can be written. */
  function Kept(c: Codec, events: seq<RunEvent>): (kept: seq<RunEvent>)
    ensures |kept| <= |events|
    ensures forall e :: e in kept <==> e in events && c.encodable(e)
  {
    if events == [] then []
    else
      var init, e := events[..|events| - 1], events[|events| - 1];
      assert forall x :: x in events <==> x in init || x == e;
      Kept(c, init) + if c.encodable(e) then [e] else []
  }

  lemma KeptNext(c: Codec, events: seq<RunEvent>, e: RunEvent)
    ensures Kept(c, events + [e]) == Kept(c, events) + if c.encodable(e) then [e] else []
  {
    assert (events + [e])[..|events|] == events;
  }

  lemma {:induction false} KeptAll(c: Codec, events: seq<RunEvent>)
    ensures Kept(c, events) == events <==> forall e :: e in events ==> c.encodable(e)
  {
    if events != [] {
      var init, e := events[..|events| - 1], events[|events| - 1];
      KeptAll(c, init);
      assert events == init + [e];
      assert forall x :: x in events <==> x in init || x == e;
    }
  }

  /** As long as nothing is lost, what is kept is what there was. */
  lemma KeptPrefix(c: Codec, events: seq<RunEvent>, k: nat)
    requires k <= |events| && forall e :: e in events[..k] ==> c.encodable(e)
    ensures k <= |Kept(c, events)| && Kept(c, events)[..k] == events[..k]
    decreases |events|
  {
    if k == |events| {
      KeptAll(c, events);
      assert events[..k] == events;
    } else {
      var init := events[..|events| - 1];
      assert init[..k] == events[..k];
      KeptPrefix(c, init, k);
    }
  }

  /** Redaction keeps the flag of a termination event. */
  ghost predicate KeepsFlag(c: Codec) {
    forall p {:trigger c.sanitize(c.redact(p))} :: c.sanitize(c.redact(p)).traceComplete == p.traceComplete
  }

  lemma {:induction false} KeptNumbered(c: Codec, events: seq<RunEvent>, runId: string)
    requires Numbered(c, events, runId)
    ensures Numbered(c, Kept(c, events), runId)
  {
    if events != [] {
      hide Kept, Numbered;
      var init, e := events[..|events| - 1], events[|events| - 1];
      assert events == init + [e];
      FewerNumbered(c, init, e, runId);
      KeptNumbered(c, init, runId);
      KeptNext(c, init, e);
      if c.encodable(e) {
        OneMoreNumber(c, init, Kept(c, init), e, runId);
      } else {
        assert Kept(c, init) + [] == Kept(c, init);
      }
    }
  }

  lemma FewerNumbered(c: Codec, init: seq<RunEvent>, e: RunEvent, runId: string)
    requires Numbered(c, init + [e], runId)
    ensures Numbered(c, init, runId) && e.runId == runId && e.sequence >= 1 && c.validTimestamp(e.timestamp)
    ensures forall x :: x in init ==> x.sequence < e.sequence
  {
    var all := init + [e];
    assert forall i :: 0 <= i < |init| ==> all[i] == init[i];
    assert all[|init|] == e;
  }

  lemma OneMoreNumber(c: Codec, init: seq<RunEvent>, kept: seq<RunEvent>, e: RunEvent, runId: string)
    requires Numbered(c, kept, runId) && forall x :: x in kept ==> x in init
    requires e.runId == runId && e.sequence >= 1 && c.validTimestamp(e.timestamp)
    requires forall x :: x in init ==> x.sequence < e.sequence
    ensures Numbered(c, kept + [e], runId)
  {
    assert forall i :: 0 <= i < |kept| ==> kept[i] in kept;
  }

  /** Writes one line per event until the first failure. */
  class TraceRecorder {
    const codec: Codec
    const runId: string
    var disabled: bool
    var traceComplete: bool
    var streamOpen: bool
    /** The bytes that reached the file. */
    var file: seq<byte>

    constructor (codec: Codec, runId: string)
      ensures this.codec == codec && this.runId == runId
      ensures !disabled && traceComplete && streamOpen && file == []
    {
      this.codec, this.runId := codec, runId;
      disabled, traceComplete, streamOpen, file := false, true, true, [];
    }

    /** Write and flush one line; a failure to write may leave any part of it behind, and
        disables the recorder for good. An event that cannot be encoded is lost and the
        recorder goes on. */
    method Emit(e: RunEvent) returns (error: Option<string>)
      modifies this
      ensures old(disabled) ==> disabled && file == old(file) && error == None && traceComplete == old(traceComplete)
      ensures !old(disabled) && error == None ==> codec.encodable(e) && !disabled && file == old(file) + Encoded(codec, e) && traceComplete == old(traceComplete)
      ensures !old(disabled) && e.runId == runId && !codec.encodable(e) ==>
                error == Some(EVENT_SINK_ERROR) && !disabled && file == old(file) && traceComplete == old(traceComplete)
      ensures !old(disabled) && error.Some? && (e.runId != runId || codec.encodable(e)) ==>
                && disabled && !traceComplete && !streamOpen && error == Some(TRACE_WRITE_ERROR)
                && exists torn :: torn <= Encoded(codec, e) && file == old(file) + torn
      ensures !old(disabled) && e.runId != runId ==> error.Some? && file == old(file)
      ensures !old(disabled) && !old(streamOpen) ==> error.Some? && file == old(file)
    {
      if disabled {
        return None;
      }
      var encoded := Encoded(codec, e);
      if e.runId != runId {
        assert file == file + [] && [] <= encoded;
        disabled, traceComplete, streamOpen := true, false, false;
        return Some(TRACE_WRITE_ERROR);
      }
      if !codec.encodable(e) {
        return Some(EVENT_SINK_ERROR);
      }
      var fails: bool := *;
      if !streamOpen || fails {
        var reached: int := *;
        var torn := if streamOpen && 0 <= reached <= |encoded| then encoded[..reached] else [];
        assert torn <= encoded;
        file := file + torn;
        disabled, traceComplete, streamOpen := true, false, false;
        return Some(TRACE_WRITE_ERROR);
      }
      file := file + encoded;
      return None;
    }
  }

  /** Numbers events and delivers each to every sink; the sinks before and after the
      recorder fail as they like. */
  class EventEmitter {
    const runId: string
    const recorder: TraceRecorder
    var sequence: nat
    var warningCount: nat
    var sinkErrorCodes: seq<string>
    var handlingSinkError: bool

    /** Every event ever numbered, and how many of them the recorder wrote whole. */
    ghost var emitted: seq<RunEvent>
    ghost var written: nat

    constructor (recorder: TraceRecorder)
      requires !recorder.disabled && recorder.traceComplete && recorder.file == []
      ensures this.recorder == recorder && runId == recorder.runId && emitted == [] && Valid()
    {
      this.recorder, runId := recorder, recorder.runId;
      sequence, warningCount, sinkErrorCodes, handlingSinkError := 0, 0, [], false;
      emitted, written := [], 0;
    }

    /** The file holds the first events that can be encoded and, after a failed write,
        part of the next. */
    ghost predicate Written()
      reads this`emitted, this`written, recorder
    {
      var kept := Kept(recorder.codec, emitted);
      && written <= |kept|
      && (!recorder.disabled ==> written == |kept| && recorder.file == EncodedAll(recorder.codec, kept))
      && (recorder.disabled ==> written < |kept| && Interrupted(EncodedAll(recorder.codec, kept[..written]), kept[written]))
      && (recorder.disabled <==> !recorder.traceComplete)
    }

    /** The file is `whole` and then some part of the line of `next`. */
    ghost predicate Interrupted(whole: seq<byte>, next: RunEvent)
      reads recorder
    {
      exists torn :: torn <= Encoded(recorder.codec, next) && recorder.file == whole + torn
    }

    ghost predicate Valid()
      reads this, recorder
    {
      && runId == recorder.runId
      && Consecutive() && sequence == |emitted|
      && Written() && !handlingSinkError
      && (recorder.disabled || Kept(recorder.codec, emitted) != emitted ==> sinkErrorCodes != [])
    }

    /** Every event number is used once, in order. */
    ghost predicate Consecutive()
      reads this`emitted
    {
      forall i :: 0 <= i < |emitted| ==>
        && emitted[i].sequence == i + 1 && emitted[i].runId == runId
        && recorder.codec.validTimestamp(emitted[i].timestamp)
    }

    method NewEvent(kind: EventKind, step: int, timestamp: string, payload: Payload) returns (e: RunEvent)
      modifies this`sequence, this`warningCount
      ensures sequence == old(sequence) + 1
      ensures e == RunEvent(runId, sequence, Max(0, step), timestamp, kind, payload)
      ensures warningCount == old(warningCount) + if kind == WarningEvent then 1 else 0
    {
      sequence := sequence + 1;
      if kind == WarningEvent {
        warningCount := warningCount + 1;
      }
      e := RunEvent(runId, sequence, Max(0, step), timestamp, kind, payload);
    }

    /** Deliver to every sink and report the first failure. */
    method Deliver(e: RunEvent) returns (error: Option<string>)
      requires runId == recorder.runId && Consecutive() && Written()
      requires e.runId == runId && e.sequence == |emitted| + 1 && recorder.codec.validTimestamp(e.timestamp)
      modifies recorder, this`emitted, this`written
      ensures emitted == old(emitted) + [e] && Consecutive() && Written()
      ensures recorder.disabled || !recorder.codec.encodable(e) ==> old(recorder.disabled) || error.Some?
    {
      hide Encoded, EncodedAll, Kept;
      var before: Option<string> := *;
      var own := recorder.Emit(e);
      var after: Option<string> := *;
      error := if before.Some? then before else if own.Some? then own else after;
      KeptNext(recorder.codec, emitted, e);
      ghost var earlier := Kept(recorder.codec, emitted);
      emitted := emitted + [e];
      ghost var kept := Kept(recorder.codec, emitted);
      assert kept[..|earlier|] == earlier;
      assert kept[..written] == earlier[..written] && (written < |earlier| ==> kept[written] == earlier[written]);
      assert kept == if recorder.codec.encodable(e) then earlier + [e] else earlier;
      assert earlier[..|earlier|] == earlier;
      if recorder.codec.encodable(e) {
        EncodedAllNext(recorder.codec, earlier, e);
        if !recorder.disabled {
          written := written + 1;
        }
      }
    }

    /** What one reported failure adds to the events and codes there were: nothing if its
        code is known, else a warning event that carries the code and admits an
        incomplete trace. */
    ghost predicate Reports(failure: Option<string>, events: seq<RunEvent>, codes: seq<string>)
      reads this`emitted, this`sinkErrorCodes
    {
      if failure.None? || failure.value in codes then
        emitted == events && sinkErrorCodes == codes
      else
        && sinkErrorCodes == codes + [failure.value]
        && |emitted| == |events| + 1 && emitted[..|events|] == events
        && emitted[|events|].kind == WarningEvent
        && emitted[|events|].payload == Payload(failure.value, Some(false))
    }

    /** Number one event and deliver it; the first failure of each kind is itself
        reported by a warning event, exactly once. */
    method Emit(kind: EventKind, step: int, timestamp: string, payload: Payload)
      returns (e: RunEvent, ghost failure: Option<string>)
      requires Valid() && recorder.codec.validTimestamp(timestamp)
      modifies this, recorder
      ensures Valid() && Reports(failure, old(emitted) + [e], old(sinkErrorCodes))
      ensures recorder.disabled ==> old(recorder.disabled) || failure.Some?
      ensures e == RunEvent(runId, |old(emitted)| + 1, Max(0, step), timestamp, kind, payload)
    {
      hide Written;
      e := NewEvent(kind, step, timestamp, payload);
      var error := Deliver(e);
      failure := error;
      if error.Some? {
        RecordSinkError(error.value, step, timestamp);
      }
    }

    method RecordSinkError(code: string, step: int, timestamp: string)
      requires runId == recorder.runId && Consecutive() && sequence == |emitted| && Written()
      requires !handlingSinkError && recorder.codec.validTimestamp(timestamp)
      modifies this, recorder
      ensures Valid() && Reports(Some(code), old(emitted), old(sinkErrorCodes))
    {
      hide Written;
      if code in sinkErrorCodes || handlingSinkError {
        return;
      }
      sinkErrorCodes := sinkErrorCodes + [code];
      handlingSinkError := true;
      var warning := NewEvent(WarningEvent, step, timestamp, Payload(code, Some(false)));
      var _ := Deliver(warning);
      handlingSinkError := false;
    }

    /** After any sequence of emitted events and failures, a trace that reads as complete
        is the encodable events up to and including the last one written whole, among
        them a termination event; and while no sink has failed it is all events, read as
        complete exactly when every line fits and the last termination event says so. */
    lemma TraceIsTrustworthy()
      requires Valid() && Sound(recorder.codec)
      ensures var r := Read(recorder.codec, runId, recorder.file);
              var kept := Kept(recorder.codec, emitted);
              r.complete ==>
                && |r.events| <= |kept|
                && r.events == RecoveredAll(recorder.codec, kept[..|r.events|])
                && LastTermination(r.events).Some? && EndsComplete(LastTermination(r.events))
      ensures sinkErrorCodes == [] ==>
                && Kept(recorder.codec, emitted) == emitted
                && (Read(recorder.codec, runId, recorder.file).complete <==>
                      && AllFit(recorder.codec, emitted)
                      && EndsComplete(LastTermination(RecoveredAll(recorder.codec, emitted))))
    {
      hide Read, EncodedAll, Encoded, AllFit, LastTermination, RecoveredAll, Kept, EndsComplete;
      var c, kept := recorder.codec, Kept(recorder.codec, emitted);
      KeptNumbered(c, emitted, runId);
      var torn: seq<byte> := [];
      if recorder.disabled {
        torn :| torn <= Encoded(c, kept[written]) && recorder.file == EncodedAll(c, kept[..written]) + torn;
      } else {
        assert kept[..written] == kept;
        assert EncodedAll(c, kept) + [] == EncodedAll(c, kept);
      }
      CompleteExactly(c, runId, kept, written, torn);
      var n := WholeLines(c, kept, written, torn);
      RecoveredLength(c, kept[..n]);
      SomeTermination(LastTermination(RecoveredAll(c, kept[..n])));
      if !recorder.disabled {
        assert n == written;
      }
    }

    /** A termination event that follows a lost event admits an incomplete trace, in a
        payload small enough to be written whole. */
    ghost predicate AdmitsLosses()
      reads this`emitted
    {
      forall i, j :: 0 <= i < j < |emitted| && !recorder.codec.encodable(emitted[i]) &&
                     emitted[j].kind == TerminationEvent ==>
                       && emitted[j].payload.traceComplete == Some(false)
                       && FullSize(recorder.codec, emitted[j]) <= MAX_EVENT_JSON_BYTES
    }

    /** Then a trace that reads as complete holds every event up to its last termination
        event, whatever was lost after it. */
    lemma CompleteMeansNothingLost()
      requires Valid() && Sound(recorder.codec) && AdmitsLosses() && KeepsFlag(recorder.codec)
      requires Read(recorder.codec, runId, recorder.file).complete
      ensures var r := Read(recorder.codec, runId, recorder.file);
              var last := LastTermination(r.events);
              && last.Some? && 1 <= last.value.sequence <= |r.events| && last.value.sequence <= |emitted|
              && forall i :: 0 <= i < last.value.sequence ==> r.events[i] == Recovered(recorder.codec, emitted[i])
    {
      hide *;
      var c, kept := recorder.codec, Kept(recorder.codec, emitted);
      var r := Read(c, runId, recorder.file);
      TraceIsTrustworthy();
      InOrder();
      var m := LastTerminationPlace(c, r.events, kept);
      var q := PlaceOf(kept[m]);
      SaysComplete(LastTermination(r.events), kept[m]);
      NothingLostBefore(q);
      KeptPrefix(c, emitted, q + 1);
      assert kept[..q + 1][q] == emitted[..q + 1][q];
      OnePlace(c, kept, runId, m, q);
      OwnNumber(q);
      AsEmitted(c, r.events, kept, q + 1);
    }

    lemma AsEmitted(c: Codec, events: seq<RunEvent>, kept: seq<RunEvent>, k: nat)
      requires |events| <= |kept| && events == RecoveredAll(c, kept[..|events|]) && k <= |events| && k <= |emitted|
      requires kept[..k] == emitted[..k]
      ensures forall i :: 0 <= i < k ==> events[i] == Recovered(c, emitted[i])
    {
      hide Recovered;
      forall i | 0 <= i < k ensures events[i] == Recovered(c, emitted[i]) {
        assert kept[..k][i] == emitted[..k][i];
      }
    }

    lemma PlaceOf(e: RunEvent) returns (q: nat)
      requires e in Kept(recorder.codec, emitted)
      ensures q < |emitted| && emitted[q] == e && recorder.codec.encodable(e)
    {
      q :| 0 <= q < |emitted| && emitted[q] == e;
    }

    lemma InOrder()
      requires Valid()
      ensures Consecutive() && Numbered(recorder.codec, Kept(recorder.codec, emitted), runId)
    {
      hide Kept, Written;
      KeptNumbered(recorder.codec, emitted, runId);
    }

    lemma OwnNumber(q: nat)
      requires Consecutive() && q < |emitted|
      ensures emitted[q].sequence == q + 1
    {
    }

    lemma LastTerminationPlace(c: Codec, events: seq<RunEvent>, kept: seq<RunEvent>) returns (m: nat)
      requires |events| <= |kept| && events == RecoveredAll(c, kept[..|events|]) && LastTermination(events).Some?
      ensures m < |events| && kept[m].kind == TerminationEvent
      ensures LastTermination(events) == Some(Recovered(c, kept[m]))
    {
      hide LastTermination;
      LastTerminationIsOne(events);
      m :| 0 <= m < |events| && events[m].kind == TerminationEvent && LastTermination(events) == Some(events[m]);
      assert events[m] == Recovered(c, kept[..|events|][m]);
    }

    lemma SaysComplete(termination: Option<RunEvent>, e: RunEvent)
      requires EndsComplete(termination) && termination == Some(Recovered(recorder.codec, e))
      ensures Recovered(recorder.codec, e).payload.traceComplete != Some(false)
      ensures Recovered(recorder.codec, e).sequence == e.sequence
    {
    }

    lemma OnePlace(c: Codec, events: seq<RunEvent>, runId: string, m: nat, q: nat)
      requires Numbered(c, events, runId) && m < |events| && q < |events| && events[m] == events[q]
      ensures m == q
    {
    }

    lemma NothingLostBefore(q: nat)
      requires q < |emitted| && emitted[q].kind == TerminationEvent
      requires AdmitsLosses() && KeepsFlag(recorder.codec) && recorder.codec.encodable(emitted[q])
      requires Recovered(recorder.codec, emitted[q]).payload.traceComplete != Some(false)
      ensures forall e :: e in emitted[..q + 1] ==> recorder.codec.encodable(e)
    {
      forall e | e in emitted[..q + 1] ensures recorder.codec.encodable(e) {
        var i :| 0 <= i <= q && emitted[i] == e;
      }
    }

    lemma SomeTermination(termination: Option<RunEvent>)
      ensures EndsComplete(termination) ==> termination.Some?
    {
    }

    lemma RecoveredLength(c: Codec, events: seq<RunEvent>)
      ensures |RecoveredAll(c, events)| == |events|
    {
    }
  }
}
