/**
 * The event handlers of one child process: capped output capture and the result
 * that the first close or error event settles.
 */
module CommandRunner {
  import opened Prelude
  import U = Utf8

  const OUTPUT_LIMIT: nat := 200 * 1024
  const MARKER := "\n[TRUNCATED]"

  const ABORT_NOTE := "\n[ABORTED] command killed"

  function SpawnNote(message: string): string {
    "\n[spawn error] " + message
  }

  // The line appended to stderr when a kill preceded the exit.
  function KillNote(timedOut: bool, aborted: bool, timeoutNote: string): string {
    if timedOut then timeoutNote else if aborted then ABORT_NOTE else ""
  }

  datatype Event =
    | Stdout(chunk: seq<U.Byte>)
    | Stderr(chunk: seq<U.Byte>)
    | Timeout
    | Abort
    | SpawnError(message: string)
    | Close(code: Option<int>)
  {
    predicate Settling() {
      SpawnError? || Close?
    }
  }

  datatype Outcome = Outcome(exitCode: Option<int>, stdout: string, stderr: string, timedOut: bool, truncated: bool, aborted: bool)

  // A chunk is decoded on its own, and only while there is room.
  function Append(current: string, chunk: seq<U.Byte>): (string, bool) {
    if |current| >= OUTPUT_LIMIT then (current, true)
    else
      var next := current + U.Decode(chunk);
      if |next| >= OUTPUT_LIMIT then (next[..OUTPUT_LIMIT] + MARKER, true) else (next, false)
  }

  // What a stream captures of a whole text.
  function Capped(text: string): string {
    if |text| < OUTPUT_LIMIT then text else text[..OUTPUT_LIMIT] + MARKER
  }

  function Captured(chunks: seq<seq<U.Byte>>): (string, bool) {
    if chunks == [] then ("", false) else Append(Captured(chunks[..|chunks| - 1]).0, chunks[|chunks| - 1])
  }

  lemma AppendCaps(text: string, chunk: seq<U.Byte>)
    ensures Append(Capped(text), chunk) == (Capped(text + U.Decode(chunk)), |text + U.Decode(chunk)| >= OUTPUT_LIMIT)
  {
    if |text| >= OUTPUT_LIMIT {
      assert (text + U.Decode(chunk))[..OUTPUT_LIMIT] == text[..OUTPUT_LIMIT];
    }
  }

  lemma {:induction false} CaptureCaps(chunks: seq<seq<U.Byte>>)
    ensures Captured(chunks) == (Capped(U.DecodeEach(chunks)), |U.DecodeEach(chunks)| >= OUTPUT_LIMIT)
  {
    if chunks != [] {
      CaptureCaps(chunks[..|chunks| - 1]);
      AppendCaps(U.DecodeEach(chunks[..|chunks| - 1]), chunks[|chunks| - 1]);
    }
  }

  /**
   * The captured stream is the capped text of all its bytes, and the flag says whether it was cut, when no chunk
   * ends inside a character that the next one goes on with; below the limit, in no other case.
   */
  lemma CaptureIgnoresChunking(chunks: seq<seq<U.Byte>>)
    ensures var text := U.Decode(U.Join(chunks));
            && (U.CleanCuts(chunks) ==> Captured(chunks) == (Capped(text), |text| >= OUTPUT_LIMIT))
            && (!Captured(chunks).1 ==> (Captured(chunks).0 == text <==> U.CleanCuts(chunks)))
  {
    CaptureCaps(chunks);
    U.PiecesDecodeIff(chunks);
  }

  /** Chunks of whole characters are captured as the text they encode. */
  lemma WholeCharactersAreCaptured(chunks: seq<seq<U.Byte>>, texts: seq<string>)
    requires U.HoldTexts(chunks, texts)
    ensures Captured(chunks) == (Capped(U.Concat(texts)), |U.Concat(texts)| >= OUTPUT_LIMIT)
  {
    CaptureCaps(chunks);
    U.WholeCharactersSurvive(chunks, texts);
  }

  /** A euro sign that arrives as one byte and then two is captured as three replacement characters. */
  lemma SplitCharacterIsLost()
    ensures U.Decode([0xE2, 0x82, 0xAC]) == "\U{20AC}"
    ensures var chunks: seq<seq<U.Byte>> := [[0xE2], [0x82, 0xAC]];
            Captured(chunks) == ([U.REPLACEMENT, U.REPLACEMENT, U.REPLACEMENT], false)
  {
    var chunks: seq<seq<U.Byte>> := [[0xE2], [0x82, 0xAC]];
    U.DecodeEncoded("\U{20AC}");
    assert U.Encode("\U{20AC}") == [0xE2, 0x82, 0xAC];
    assert U.Decode([0xE2]) == [U.REPLACEMENT] && U.Decode([0x82, 0xAC]) == [U.REPLACEMENT, U.REPLACEMENT];
    assert chunks[..1] == [[0xE2]] && chunks[..1][..0] == [];
    assert U.DecodeEach(chunks[..1]) == U.DecodeEach([]) + U.Decode([0xE2]);
    assert U.DecodeEach(chunks) == U.DecodeEach(chunks[..1]) + U.Decode([0x82, 0xAC])
        == [U.REPLACEMENT, U.REPLACEMENT, U.REPLACEMENT];
    CaptureCaps(chunks);
  }

  // ---- Reading an event history without its state: each stream's chunks, decoded one by one ----

  function Output(events: seq<Event>): string {
    if events == [] then ""
    else if events[|events| - 1].Stdout? then Output(events[..|events| - 1]) + U.Decode(events[|events| - 1].chunk)
    else Output(events[..|events| - 1])
  }

  function Errors(events: seq<Event>): string {
    if events == [] then ""
    else if events[|events| - 1].Stderr? then Errors(events[..|events| - 1]) + U.Decode(events[|events| - 1].chunk)
    else Errors(events[..|events| - 1])
  }

  // The result that the settling event `last` produces after the unsettled history `before`.
  function Expected(before: seq<Event>, last: Event, timeoutNote: string, redact: string -> string): Outcome
    requires last.Settling()
  {
    var out, err := Output(before), Errors(before);
    var timedOut, aborted := Timeout in before, Abort in before;
    var note := KillNote(timedOut, aborted, timeoutNote);
    var spawn := if last.SpawnError? then SpawnNote(last.message) else "";
    Outcome(if timedOut || aborted || last.SpawnError? then None else last.code,
            redact(Capped(out)), redact((Capped(err) + spawn) + note),
            timedOut, |out| >= OUTPUT_LIMIT || |err| >= OUTPUT_LIMIT, aborted)
  }

  // What a caller reads off the result when `last` settles the command after `before`: a kill or a spawn error leaves no exit
  // code, a timeout outranks an abort in the note, and a stream that reached 204800 characters is cut there.
  ghost predicate Tells(before: seq<Event>, last: Event, timeoutNote: string, redact: string -> string, o: Outcome) {
    && o.timedOut == (Timeout in before) && o.aborted == (Abort in before)
    && (o.exitCode == if last.Close? && Timeout !in before && Abort !in before then last.code else None)
    && (o.truncated <==> |Output(before)| >= 204800 || |Errors(before)| >= 204800)
    && (|Output(before)| < 204800 ==> o.stdout == redact(Output(before)))
    && (|Output(before)| >= 204800 ==> o.stdout == redact(Output(before)[..204800] + "\n[TRUNCATED]"))
    && exists err, spawn, note ::
         && o.stderr == redact((err + spawn) + note)
         && (err == if |Errors(before)| < 204800 then Errors(before) else Errors(before)[..204800] + "\n[TRUNCATED]")
         && (spawn == if last.SpawnError? then "\n[spawn error] " + last.message else "")
         && note == if Timeout in before then timeoutNote else if Abort in before then "\n[ABORTED] command killed" else ""
  }

  lemma ExpectedTells(before: seq<Event>, last: Event, timeoutNote: string, redact: string -> string)
    requires last.Settling()
    ensures Tells(before, last, timeoutNote, redact, Expected(before, last, timeoutNote, redact))
  {
    var spawn := if last.SpawnError? then SpawnNote(last.message) else "";
    var note := KillNote(Timeout in before, Abort in before, timeoutNote);
    assert Expected(before, last, timeoutNote, redact).stderr == redact((Capped(Errors(before)) + spawn) + note);
  }

  ghost predicate Unsettled(events: seq<Event>) {
    forall e <- events :: !e.Settling()
  }

  lemma HistoryGrows(events: seq<Event>, e: Event)
    ensures Output(events + [e]) == if e.Stdout? then Output(events) + U.Decode(e.chunk) else Output(events)
    ensures Errors(events + [e]) == if e.Stderr? then Errors(events) + U.Decode(e.chunk) else Errors(events)
    ensures forall x :: x in events + [e] <==> x in events || x == e
  {
    var longer := events + [e];
    assert longer[..|longer| - 1] == events;
  }

  class Runner {
    const timeoutNote: string
    const redact: string -> string
    var stdout: string
    var stderr: string
    var outTrunc: bool
    var errTrunc: bool
    var timedOut: bool
    var aborted: bool
    var settled: bool
    var result: Option<Outcome>

    // The state that an unsettled history leaves behind.
    ghost predicate Reflects(events: seq<Event>)
      reads this
    {
      && Unsettled(events) && !settled && result == None
      && stdout == Capped(Output(events)) && outTrunc == (|Output(events)| >= OUTPUT_LIMIT)
      && stderr == Capped(Errors(events)) && errTrunc == (|Errors(events)| >= OUTPUT_LIMIT)
      && timedOut == (Timeout in events) && aborted == (Abort in events)
    }

    constructor (timeoutNote: string, redact: string -> string)
      ensures Reflects([]) && this.timeoutNote == timeoutNote && this.redact == redact
    {
      this.timeoutNote, this.redact := timeoutNote, redact;
      stdout, stderr, outTrunc, errTrunc := "", "", false, false;
      timedOut, aborted, settled, result := false, false, false, None;
    }

    method Finish(code: Option<int>)
      modifies this
      ensures settled && stdout == old(stdout) && outTrunc == old(outTrunc)
      ensures old(settled) ==> result == old(result)
      ensures !old(settled) ==>
                result == Some(Outcome(if old(timedOut) || old(aborted) then None else code, redact(old(stdout)),
                                       redact(old(stderr) + KillNote(old(timedOut), old(aborted), timeoutNote)),
                                       old(timedOut), old(outTrunc) || old(errTrunc), old(aborted)))
    {
      if settled { return; }
      settled := true;
      var suffix := KillNote(timedOut, aborted, timeoutNote);
      result := Some(Outcome(if timedOut || aborted then None else code, redact(stdout), redact(stderr + suffix),
                             timedOut, outTrunc || errTrunc, aborted));
    }

    method OnOutput(e: Event, ghost history: seq<Event>)
      requires !settled && Reflects(history) && !e.Settling()
      modifies this
      ensures Reflects(history + [e])
    {
      HistoryGrows(history, e);
      match e {
        case Stdout(chunk) =>
          AppendCaps(Output(history), chunk);
          var next := Append(stdout, chunk);
          stdout, outTrunc := next.0, next.1;
        case Stderr(chunk) =>
          AppendCaps(Errors(history), chunk);
          var next := Append(stderr, chunk);
          stderr, errTrunc := next.0, next.1;
        case Timeout => timedOut := true;
        case Abort => aborted := true;
      }
    }

    method OnEnd(e: Event, ghost history: seq<Event>)
      requires !settled && Reflects(history) && e.Settling()
      modifies this
      ensures settled && result == Some(Expected(history, e, timeoutNote, redact))
    {
      match e {
        case SpawnError(message) =>
          stderr := stderr + SpawnNote(message);
          Finish(None);
        case Close(code) =>
          assert stderr + "" == stderr;
          Finish(code);
      }
    }

    // After settling the timer and the abort listener are gone; output no longer reaches the result.
    method OnEvent(e: Event, ghost history: seq<Event>)
      requires !settled ==> Reflects(history)
      modifies this
      ensures old(settled) ==> settled && result == old(result)
      ensures !old(settled) && !e.Settling() ==> Reflects(history + [e])
      ensures !old(settled) && e.Settling() ==> settled && result == Some(Expected(history, e, timeoutNote, redact))
    {
      if settled {
        if e.Settling() { Finish(None); }
      } else if e.Settling() {
        OnEnd(e, history);
      } else {
        OnOutput(e, history);
      }
    }

    /** Any order of events: the result is set by the first settling event, once, from what came before it. */
    method Play(events: seq<Event>) returns (ghost first: nat)
      requires Reflects([])
      modifies this
      ensures first <= |events| && Unsettled(events[..first])
      ensures first == |events| ==> result == None
      ensures first < |events| ==> events[first].Settling() && result == Some(Expected(events[..first], events[first], timeoutNote, redact))
      ensures first < |events| ==> Tells(events[..first], events[first], timeoutNote, redact, result.value)
    {
      first := |events|;
      for i := 0 to |events|
        invariant first <= |events| && (!settled ==> Reflects(events[..i]))
        invariant settled <==> first < |events|
        invariant settled ==> first < i && events[first].Settling() && Unsettled(events[..first])
        invariant settled ==> result == Some(Expected(events[..first], events[first], timeoutNote, redact))
      {
        if !settled && events[i].Settling() { first := i; }
        assert events[..i] + [events[i]] == events[..i + 1];
        OnEvent(events[i], events[..i]);
      }
      assert events[..|events|] == events;
      if first < |events| { ExpectedTells(events[..first], events[first], timeoutNote, redact); }
    }
  }
}
