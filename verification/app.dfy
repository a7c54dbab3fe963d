/** One press of "Generate Prompts" (`handleGenerate` in App.tsx) as a pure
    function of the page state, the inputs and the outside world: the enable
    guard, the reset at the start of a run, the plan, one generation call per
    segment, the ordered fail-fast join of `Promise.all`, and the state the
    run leaves behind. The audio decoder, the file reader and the generation
    service are not modelled; their outcomes are given in an `Environment`. */
module App {
  import opened Results
  import opened Text
  import opened Types
  import opened Segments
  import FileUtils

  /** The page state a run reads and writes. */
  datatype AppState = AppState(prompts: seq<GeneratedPrompt>, isLoading: bool, error: Option<string>)

  /** What the page has collected: whether an audio and an image file are
      chosen, the lyric text and the chosen segment length. */
  datatype Inputs = Inputs(hasAudio: bool, hasImage: bool, lyrics: string, segmentDuration: nat)

  /** How one generation call settles: with the prompt text, or with the
      message of the error the service threw. */
  datatype SegmentResult = Resolved(text: string) | Rejected(message: string)

  /** The outside world of one run: the decoded duration of the audio (or how
      decoding failed), the image read as a data URL (`None` when the reader
      failed), the outcome of the `i`-th generation call, and the time at
      which the `i`-th call settles. */
  datatype Environment = Environment(
    duration: Result<real, Rejection>,
    imageRead: Option<string>,
    respond: nat -> SegmentResult,
    settle: nat -> nat)

  /** What a run does: the calls it makes, the state shown while they are in
      flight, and the state it ends in. */
  datatype Run = Run(requests: seq<SegmentRequest>, pending: AppState, final: AppState)

  /** `isGenerationDisabled`: a missing file, empty lyrics or a run in progress. */
  predicate GenerationDisabled(inp: Inputs, isLoading: bool)
  {
    !inp.hasAudio || !inp.hasImage || inp.lyrics == [] || isLoading
  }

  /** The message shown when a rejection carries none. */
  const UnknownErrorMessage: string := "An unknown error occurred."

  /** `err.message || 'An unknown error occurred.'` as written: a bare string
      has no `message` property, so its text is never shown. */
  function ShownMessageAsWritten(e: Rejection): (shown: string)
    ensures shown != []
    ensures e.ErrorObject? && e.message != [] ==> shown == e.message
    ensures !(e.ErrorObject? && e.message != []) ==> shown == UnknownErrorMessage
  {
    match e
    case ErrorObject(m) => if m == [] then UnknownErrorMessage else m
    case StringReason(_) => UnknownErrorMessage
    case OtherReason => UnknownErrorMessage
  }

  /** The message shown for a failed run, reading the text of a bare string
      rejection as well as an `Error`'s message. */
  function ShownMessage(e: Rejection): (shown: string)
    ensures shown != []
    ensures e.ErrorObject? && e.message != [] ==> shown == e.message
    ensures e.StringReason? && e.reason != [] ==> shown == e.reason
  {
    match e
    case ErrorObject(m) => if m == [] then UnknownErrorMessage else m
    case StringReason(r) => if r == [] then UnknownErrorMessage else r
    case OtherReason => UnknownErrorMessage
  }

  /** As written, both string rejections of the run (the audio decoder's and
      `fileToBase64`'s) reach the user as the unknown-error message. */
  lemma AsWrittenHidesStringReasons(reason: string)
    ensures ShownMessageAsWritten(StringReason(reason)) == UnknownErrorMessage
    ensures ShownMessageAsWritten(StringReason(FileUtils.InvalidFormatMessage))
         != FileUtils.InvalidFormatMessage
  {
    assert UnknownErrorMessage[0] != FileUtils.InvalidFormatMessage[0];
  }

  /** The corrected message agrees with the written one on `Error` objects and
      the reader's event, and shows a string rejection's own text. */
  lemma ShownMessageRefinesAsWritten(e: Rejection)
    ensures !e.StringReason? ==> ShownMessage(e) == ShownMessageAsWritten(e)
    ensures ShownMessage(StringReason(FileUtils.InvalidFormatMessage)) == FileUtils.InvalidFormatMessage
  {
  }

  /** Among the first `k` results, the rejected one that settles first (the
      lowest index among equally early ones); `None` when all resolved. */
  function EarliestRejection(results: seq<SegmentResult>, settle: nat -> nat, k: nat): (r: Option<nat>)
    requires k <= |results|
    ensures r.None? <==> forall i :: 0 <= i < k ==> results[i].Resolved?
    ensures r.Some? ==> r.value < k && results[r.value].Rejected?
    ensures r.Some? ==>
      forall i :: 0 <= i < k && results[i].Rejected? ==> settle(r.value) <= settle(i)
  {
    if k == 0 then None
    else
      var best := EarliestRejection(results, settle, k - 1);
      if results[k - 1].Resolved? then best
      else if best.Some? && settle(best.value) <= settle(k - 1) then best
      else Some(k - 1)
  }

  /** The texts of results that all resolved, in index order. */
  function ResolvedTexts(results: seq<SegmentResult>): (texts: seq<string>)
    requires forall i :: 0 <= i < |results| ==> results[i].Resolved?
    ensures |texts| == |results|
    ensures forall i :: 0 <= i < |results| ==> texts[i] == results[i].text
  {
    if |results| == 0 then [] else ResolvedTexts(results[..|results| - 1]) + [results[|results| - 1].text]
  }

  /** `Promise.all`: the texts in index order when every call resolved,
      whatever order they settled in; otherwise the message of the rejection
      that settled first. */
  function PromiseAll(results: seq<SegmentResult>, settle: nat -> nat): (r: Result<seq<string>, string>)
    ensures r.Ok? <==> forall i :: 0 <= i < |results| ==> results[i].Resolved?
    ensures r.Ok? ==> |r.value| == |results|
    ensures r.Ok? ==> forall i :: 0 <= i < |results| ==> r.value[i] == results[i].text
    ensures r.Err? ==>
      exists j :: 0 <= j < |results| && results[j] == Rejected(r.error)
        && forall i :: 0 <= i < |results| && results[i].Rejected? ==> settle(j) <= settle(i)
  {
    match EarliestRejection(results, settle, |results|)
    case None => Ok(ResolvedTexts(results))
    case Some(j) => Err(results[j].message)
  }

  /** When every call resolves, the joined list does not depend on the order
      in which the calls settled. */
  lemma PromiseAllIgnoresSettleOrder(results: seq<SegmentResult>, settle1: nat -> nat, settle2: nat -> nat)
    requires forall i :: 0 <= i < |results| ==> results[i].Resolved?
    ensures PromiseAll(results, settle1) == PromiseAll(results, settle2)
  {
    var r1 := PromiseAll(results, settle1).value;
    var r2 := PromiseAll(results, settle2).value;
    assert |r1| == |r2|;
    assert forall i :: 0 <= i < |r1| ==> r1[i] == r2[i];
  }

  /** Settle times for three calls: the second settles first, the third last. */
  function SecondSettlesFirst(i: nat): nat
  {
    if i == 1 then 0 else if i == 0 then 1 else 2
  }

  /** Three calls where the second settles first and the third last still
      join as [first, second, third]. */
  lemma PromiseAllExample(a: string, b: string, c: string)
    ensures PromiseAll([Resolved(a), Resolved(b), Resolved(c)], SecondSettlesFirst) == Ok([a, b, c])
  {
    var results := [Resolved(a), Resolved(b), Resolved(c)];
    assert forall i :: 0 <= i < |results| ==> results[i].Resolved?;
    var r := PromiseAll(results, SecondSettlesFirst);
    assert r.Ok? && |r.value| == 3;
    assert r.value[0] == a && r.value[1] == b && r.value[2] == c;
    assert r.value == [a, b, c];
  }

  /** The outcome of the `i`-th call, for each segment of a plan. */
  function Responses(plan: seq<SegmentRequest>, respond: nat -> SegmentResult): (results: seq<SegmentResult>)
    ensures |results| == |plan|
    ensures forall i :: 0 <= i < |plan| ==> results[i] == respond(i)
  {
    seq(|plan|, i requires 0 <= i < |plan| => respond(i))
  }

  /** `resolvedPrompts.map((prompt, index) => ({...promptMetadata[index], prompt}))`. */
  function Assemble(plan: seq<SegmentRequest>, texts: seq<string>): (prompts: seq<GeneratedPrompt>)
    requires |texts| == |plan|
    ensures |prompts| == |plan|
    ensures forall i :: 0 <= i < |plan| ==>
      prompts[i] == GeneratedPrompt(plan[i].window.startTime, plan[i].window.endTime, texts[i])
  {
    seq(|plan|, i requires 0 <= i < |plan| =>
      GeneratedPrompt(plan[i].window.startTime, plan[i].window.endTime, texts[i]))
  }

  /** The state a failed run ends in: no prompts, the message, not loading. */
  function Failed(message: string): AppState
  {
    AppState([], false, Some(message))
  }

  /** `handleGenerate`, with the step that turns a rejection into the text
      shown (App.tsx:91) as the parameter `show`. */
  function Press(s: AppState, inp: Inputs, env: Environment, show: Rejection -> string): (run: Run)
    requires inp.segmentDuration > 0
    requires env.duration.Ok? ==> env.duration.value >= 0.0
    ensures GenerationDisabled(inp, s.isLoading) ==> run == Run([], s, s)
    ensures !GenerationDisabled(inp, s.isLoading) ==>
      && run.pending == AppState([], true, None)
      && !run.final.isLoading
      && (run.final.error.Some? ==> run.final.prompts == [])
      && (run.final.error.None? ==> |run.final.prompts| == |run.requests|)
    ensures !GenerationDisabled(inp, s.isLoading) && env.duration.Err? ==>
      run.requests == [] && run.final == Failed(show(env.duration.error))
    ensures !GenerationDisabled(inp, s.isLoading) && env.duration.Ok? && env.imageRead.None? ==>
      run.requests == [] && run.final == Failed(show(OtherReason))
    ensures !GenerationDisabled(inp, s.isLoading) && env.duration.Ok?
            && env.imageRead.Some? && ',' !in env.imageRead.value ==>
      run.requests == [] && run.final == Failed(show(StringReason(FileUtils.InvalidFormatMessage)))
  {
    if GenerationDisabled(inp, s.isLoading) then Run([], s, s)
    else
      var pending := AppState([], true, None);
      match env.duration
      case Err(e) => Run([], pending, Failed(show(e)))
      case Ok(duration) =>
        match FileUtils.FileToBase64(env.imageRead)
        case Err(e) => Run([], pending, Failed(show(e)))
        case Ok(_) =>
          var plan := Plan(duration, inp.segmentDuration, inp.lyrics);
          match PromiseAll(Responses(plan, env.respond), env.settle)
          case Ok(texts) => Run(plan, pending, AppState(Assemble(plan, texts), false, None))
          case Err(m) => Run(plan, pending, Failed(show(ErrorObject(m))))
  }

  /** `handleGenerate` as written: a disabled press does nothing, an enabled
      one shows loading and ends either with prompts or with an error, and a
      rejection that is not an `Error` object is shown as the unknown error. */
  function Generate(s: AppState, inp: Inputs, env: Environment): (run: Run)
    requires inp.segmentDuration > 0
    requires env.duration.Ok? ==> env.duration.value >= 0.0
    ensures GenerationDisabled(inp, s.isLoading) ==> run == Run([], s, s)
    ensures !GenerationDisabled(inp, s.isLoading) ==>
      && run.pending == AppState([], true, None)
      && !run.final.isLoading
      && (run.final.error.Some? ==> run.final.prompts == [])
      && (run.final.error.None? ==> |run.final.prompts| == |run.requests|)
    ensures !GenerationDisabled(inp, s.isLoading) && env.duration.Err? && !env.duration.error.ErrorObject? ==>
      run.final.error == Some(UnknownErrorMessage)
    ensures !GenerationDisabled(inp, s.isLoading) && env.duration.Ok?
            && (env.imageRead.None? || ',' !in env.imageRead.value) ==>
      run.final.error == Some(UnknownErrorMessage)
  {
    Press(s, inp, env, ShownMessageAsWritten)
  }

  /** `handleGenerate` with the corrected message: a string rejection shows
      its own text. */
  function GenerateCorrected(s: AppState, inp: Inputs, env: Environment): (run: Run)
    requires inp.segmentDuration > 0
    requires env.duration.Ok? ==> env.duration.value >= 0.0
    ensures !GenerationDisabled(inp, s.isLoading) && env.duration.Err?
            && env.duration.error.StringReason? && env.duration.error.reason != [] ==>
      run.final.error == Some(env.duration.error.reason)
    ensures !GenerationDisabled(inp, s.isLoading) && env.duration.Ok?
            && env.imageRead.Some? && ',' !in env.imageRead.value ==>
      run.final.error == Some(FileUtils.InvalidFormatMessage)
  {
    Press(s, inp, env, ShownMessage)
  }

  /** The correction changes only the text of the error: the calls made, the
      prompts shown, the loading flag and whether there is an error are the
      same, and so is the error itself unless a string rejection caused it. */
  lemma GenerateCorrectedAgrees(s: AppState, inp: Inputs, env: Environment)
    requires inp.segmentDuration > 0
    requires env.duration.Ok? ==> env.duration.value >= 0.0
    ensures var fixed := GenerateCorrected(s, inp, env);
      var written := Generate(s, inp, env);
      && fixed.requests == written.requests
      && fixed.pending == written.pending
      && fixed.final.prompts == written.final.prompts
      && fixed.final.isLoading == written.final.isLoading
      && fixed.final.error.Some? == written.final.error.Some?
    ensures (GenerationDisabled(inp, s.isLoading)
             || !((env.duration.Err? && env.duration.error.StringReason?)
                  || (env.duration.Ok? && env.imageRead.Some? && ',' !in env.imageRead.value))) ==>
      GenerateCorrected(s, inp, env).final == Generate(s, inp, env).final
  {
    if !GenerationDisabled(inp, s.isLoading) && env.duration.Err? {
      ShownMessageRefinesAsWritten(env.duration.error);
    }
  }

  /** A character image whose data URL has no comma: as written the page
      shows the unknown error, corrected it shows why the image was refused. */
  lemma CommalessImageExample(s: AppState, respond: nat -> SegmentResult, settle: nat -> nat)
    requires !s.isLoading
    ensures var inp := Inputs(true, true, "la", 10);
      var env := Environment(Ok(12.0), Some("abc"), respond, settle);
      && Generate(s, inp, env).final == AppState([], false, Some(UnknownErrorMessage))
      && GenerateCorrected(s, inp, env).final == AppState([], false, Some(FileUtils.InvalidFormatMessage))
  {
    var inp := Inputs(true, true, "la", 10);
    var env := Environment(Ok(12.0), Some("abc"), respond, settle);
    assert ',' !in "abc";
    assert !GenerationDisabled(inp, s.isLoading);
  }

  /** The press goes ahead exactly when both files are chosen, the lyrics are
      not empty and no run is in progress; otherwise nothing changes. */
  lemma GenerationGuard(s: AppState, inp: Inputs, env: Environment)
    requires inp.segmentDuration > 0
    requires env.duration.Ok? ==> env.duration.value >= 0.0
    ensures !GenerationDisabled(inp, s.isLoading)
        <==> inp.hasAudio && inp.hasImage && |inp.lyrics| > 0 && !s.isLoading
    ensures !GenerationDisabled(inp, s.isLoading) ==>
      Generate(s, inp, env).pending == AppState([], true, None)
    ensures !(inp.hasAudio && inp.hasImage && |inp.lyrics| > 0 && !s.isLoading) ==>
      Generate(s, inp, env) == Run([], s, s)
  {
  }

  /** The inputs under which a run reaches the generation calls. */
  predicate Dispatches(s: AppState, inp: Inputs, env: Environment)
  {
    && !GenerationDisabled(inp, s.isLoading)
    && env.duration.Ok? && env.duration.value >= 0.0
    && inp.segmentDuration > 0
    && env.imageRead.Some? && ',' in env.imageRead.value
  }

  /** Once the audio is decoded and the image encoded, a run makes exactly one
      call per segment of the plan, in window order. */
  lemma GenerateCallsOncePerSegment(s: AppState, inp: Inputs, env: Environment)
    requires Dispatches(s, inp, env)
    ensures Generate(s, inp, env).requests == Plan(env.duration.value, inp.segmentDuration, inp.lyrics)
    ensures |Generate(s, inp, env).requests| == NumSegments(env.duration.value, inp.segmentDuration)
  {
  }

  /** When every call resolves, prompt `i` pairs window `i` with the answer to
      call `i`, and no error is set. */
  lemma GenerateSuccess(s: AppState, inp: Inputs, env: Environment)
    requires Dispatches(s, inp, env)
    requires forall i :: 0 <= i < NumSegments(env.duration.value, inp.segmentDuration) ==> env.respond(i).Resolved?
    ensures var run := Generate(s, inp, env);
      && run.final.error == None
      && !run.final.isLoading
      && |run.final.prompts| == |run.requests|
      && forall i :: 0 <= i < |run.requests| ==>
           run.final.prompts[i] == GeneratedPrompt(run.requests[i].window.startTime,
                                                   run.requests[i].window.endTime,
                                                   env.respond(i).text)
  {
    var plan := Plan(env.duration.value, inp.segmentDuration, inp.lyrics);
    var results := Responses(plan, env.respond);
    assert forall i :: 0 <= i < |results| ==> results[i].Resolved?;
  }

  /** If any call rejects, the run shows no prompts at all, only the message of
      one of the rejected calls, and stops loading. */
  lemma GenerateFailFast(s: AppState, inp: Inputs, env: Environment, k: nat)
    requires Dispatches(s, inp, env)
    requires k < NumSegments(env.duration.value, inp.segmentDuration) && env.respond(k).Rejected?
    ensures var run := Generate(s, inp, env);
      && run.final.prompts == []
      && !run.final.isLoading
      && run.final.error.Some?
      && exists j :: 0 <= j < |run.requests| && env.respond(j).Rejected?
           && run.final.error == Some(ShownMessageAsWritten(ErrorObject(env.respond(j).message)))
  {
    var plan := Plan(env.duration.value, inp.segmentDuration, inp.lyrics);
    var results := Responses(plan, env.respond);
    assert results[k].Rejected?;
    var m := PromiseAll(results, env.settle).error;
    var j :| 0 <= j < |results| && results[j] == Rejected(m);
    assert env.respond(j).Rejected? && env.respond(j).message == m;
  }

  /** A failed decode or encode ends the run before any call is made; as
      written, a comma-less image is reported as the unknown error. */
  lemma GenerateStopsBeforeCalls(s: AppState, inp: Inputs, env: Environment)
    requires !GenerationDisabled(inp, s.isLoading) && inp.segmentDuration > 0
    requires env.duration.Ok? ==> env.duration.value >= 0.0
    requires env.duration.Err? || env.imageRead.None? || ',' !in env.imageRead.value
    ensures var run := Generate(s, inp, env);
      && run.requests == []
      && run.final.prompts == [] && !run.final.isLoading && run.final.error.Some?
    ensures env.duration.Err? ==>
      Generate(s, inp, env).final == Failed(ShownMessageAsWritten(env.duration.error))
    ensures env.duration.Ok? && env.imageRead.Some? ==>
      Generate(s, inp, env).final.error == Some(UnknownErrorMessage)
  {
  }

  /** Lyrics of whitespace alone pass the enable check, yet every call is made
      without lyrics. */
  lemma BlankLyricsStillGenerate(s: AppState, inp: Inputs, env: Environment)
    requires inp.hasAudio && inp.hasImage && !s.isLoading
    requires inp.lyrics != [] && IsBlank(inp.lyrics)
    requires inp.segmentDuration > 0
    requires env.duration.Ok? && env.duration.value >= 0.0
    requires env.imageRead.Some? && ',' in env.imageRead.value
    ensures !GenerationDisabled(inp, s.isLoading)
    ensures Generate(s, inp, env).requests == Plan(env.duration.value, inp.segmentDuration, inp.lyrics)
    ensures forall i :: 0 <= i < |Generate(s, inp, env).requests| ==>
      Generate(s, inp, env).requests[i].lines == []
  {
    GenerateCallsOncePerSegment(s, inp, env);
    PlanOfBlankLyrics(env.duration.value, inp.segmentDuration, inp.lyrics);
  }
}
