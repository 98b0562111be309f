/** One rerun of the page script: the stored course context (app.py:88-96),
    the answer pipeline with its voice fallback (app.py:61-72, 122-134), and
    the session seen across many reruns.

    The generation and speech services are parameters: `generate` maps a
    request to an answer or an error, `synthesise` maps a text to the audio
    chunks it streams back or an error. */
module Session {
  import opened Common
  import opened Ingest
  import opened Prompt
  import opened Dispatch

  /** Observable effects of a rerun, in the order they happen. */
  datatype Event =
    | Generate(request: seq<Part>)   // call to the generation service
    | ShowAnswer(text: string)       // the written answer in the assistant bubble
    | Synthesize(text: string)       // call to the speech service
    | PlayAudio(audio: seq<byte>)    // the audio player, set to autoplay

  /** What the generation service does with a request. The source does not
      catch its errors: an error ends the rerun. */
  datatype Generation = Answer(text: string) | GenerationError

  /** What the speech service does with a text: the chunks of the audio
      stream, or an error (exhausted credits, network failure, ...). */
  datatype Synthesis = Chunks(chunks: seq<seq<byte>>) | SynthesisError

  /** `st.session_state` reduced to the one key the page uses;
      `None` while `'context'` has never been set. */
  datatype SessionState = SessionState(context: Option<string>)

  /** The state of a session that has not run the script yet. */
  const Fresh: SessionState := SessionState(None)

  /** The widget values seen by one rerun. */
  datatype Rerun = Rerun(
    uploaded: seq<PdfFile>,      // the files in the uploader, in upload order
    memoriseClicked: bool,       // the "memorise" button was clicked
    audio: Option<seq<byte>>,    // bytes of the recording, if any
    text: Option<string>)        // the typed question, if any

  /** The result of a rerun: the session after it, the effects in order,
      and whether an uncaught generation error cut it short. */
  datatype RunResult = RunResult(state: SessionState, trace: seq<Event>, aborted: bool)

  // ---------------------------------------------------------------------------
  // Voice

  /** `play_voice`: the joined audio stream, or `None` when synthesis raised. */
  function PlayVoice(outcome: Synthesis): (r: Option<seq<byte>>)
    ensures r.None? <==> outcome.SynthesisError?
    ensures r.Some? ==> |r.value| == TotalLength(outcome.chunks)
    ensures r.Some? ==> forall k :: 0 <= k < |outcome.chunks| ==>
      TotalLength(outcome.chunks[..k]) + |outcome.chunks[k]| <= |r.value|
      && r.value[TotalLength(outcome.chunks[..k])..TotalLength(outcome.chunks[..k]) + |outcome.chunks[k]|]
         == outcome.chunks[k]
  {
    match outcome
    case SynthesisError => None
    case Chunks(cs) =>
      FlattenLength(cs);
      FlattenContents(cs);
      Some(Flatten(cs))
  }

  // ---------------------------------------------------------------------------
  // Context

  /** Whether the rerun replaces the stored context: the button exists only
      while files are in the uploader, and acts only on the rerun it was clicked. */
  predicate Memorises(rerun: Rerun) {
    rerun.uploaded != [] && rerun.memoriseClicked
  }

  /** The session update at the top of the script: the memorise action first,
      then the initialisation that fills in `""` only when nothing is stored. */
  function UpdateContext(state: SessionState, rerun: Rerun): (s: SessionState)
    ensures s.context.Some?
    ensures Memorises(rerun) ==> s.context.value == Corpus(rerun.uploaded)
    ensures !Memorises(rerun) && state.context.Some? ==> s == state
    ensures !Memorises(rerun) && state.context.None? ==> s.context.value == ""
  {
    var afterMemorise :=
      if Memorises(rerun) then SessionState(Some(Corpus(rerun.uploaded))) else state;
    if afterMemorise.context.None? then SessionState(Some("")) else afterMemorise
  }

  // ---------------------------------------------------------------------------
  // Answer pipeline

  /** Lines 123-134 for content already selected: generate, show the answer,
      synthesise it, and play the audio only if some came back. */
  function Respond(content: UserContent, context: string,
                   generate: seq<Part> -> Generation,
                   synthesise: string -> Synthesis): (r: RunResult)
    ensures r.state == SessionState(Some(context))
    ensures |r.trace| >= 1 && r.trace[0] == Generate(BuildRequest(content, context))
    ensures r.aborted <==> generate(BuildRequest(content, context)).GenerationError?
    ensures r.aborted ==> |r.trace| == 1
    ensures !r.aborted ==>
      var answer := generate(BuildRequest(content, context)).text;
      && 3 <= |r.trace| <= 4
      && r.trace[1] == ShowAnswer(answer)
      && r.trace[2] == Synthesize(answer)
      && (|r.trace| == 4 <==> PlayVoice(synthesise(answer)).Some? && PlayVoice(synthesise(answer)).value != [])
      && (|r.trace| == 4 ==> r.trace[3] == PlayAudio(PlayVoice(synthesise(answer)).value))
  {
    var request := BuildRequest(content, context);
    match generate(request)
    case GenerationError =>
      RunResult(SessionState(Some(context)), [Generate(request)], true)
    case Answer(answer) =>
      var shown := [Generate(request), ShowAnswer(answer), Synthesize(answer)];
      var audioBytes := PlayVoice(synthesise(answer));
      if audioBytes.Some? && audioBytes.value != [] then
        RunResult(SessionState(Some(context)), shown + [PlayAudio(audioBytes.value)], false)
      else
        RunResult(SessionState(Some(context)), shown, false)
  }

  /** One whole rerun of the script: the context update, then, when an input
      was selected, the answer pipeline on it with the updated context. */
  function RunScript(state: SessionState, rerun: Rerun,
                     generate: seq<Part> -> Generation,
                     synthesise: string -> Synthesis): (r: RunResult)
    ensures r.state == UpdateContext(state, rerun)
    ensures r.trace == [] <==> !HasInput(rerun.audio, rerun.text)
    ensures r.aborted ==> HasInput(rerun.audio, rerun.text)
    ensures HasInput(rerun.audio, rerun.text) ==>
      r == Respond(SelectInput(rerun.audio, rerun.text).value, UpdateContext(state, rerun).context.value,
                   generate, synthesise)
  {
    var s := UpdateContext(state, rerun);
    match SelectInput(rerun.audio, rerun.text)
    case None => RunResult(s, [], false)
    case Some(content) => Respond(content, s.context.value, generate, synthesise)
  }

  // ---------------------------------------------------------------------------
  // Properties of a rerun

  /** The written answer is out before synthesis is requested and before any
      audio plays; the speech service is asked to voice exactly that answer;
      and there is at most one request, one answer and one audio clip. */
  lemma AnswerBeforeVoice(state: SessionState, rerun: Rerun,
                          generate: seq<Part> -> Generation,
                          synthesise: string -> Synthesis)
    ensures var t := RunScript(state, rerun, generate, synthesise).trace;
      forall i :: 0 <= i < |t| && (t[i].Synthesize? || t[i].PlayAudio?) ==>
        1 <= i && t[1].ShowAnswer? && (t[i].Synthesize? ==> t[i].text == t[1].text)
    ensures var t := RunScript(state, rerun, generate, synthesise).trace;
      forall i, j :: 0 <= i < j < |t| ==> t[i].Generate? ==> !t[j].Generate?
  {
  }

  /** Voice fallback: when synthesis raises, the rerun still completes, the
      generated answer itself has been shown, and nothing is played. */
  lemma SynthesisFailureKeepsAnswer(state: SessionState, rerun: Rerun,
                                    generate: seq<Part> -> Generation,
                                    synthesise: string -> Synthesis)
    requires HasInput(rerun.audio, rerun.text)
    requires var s := UpdateContext(state, rerun);
      var request := BuildRequest(SelectInput(rerun.audio, rerun.text).value, s.context.value);
      generate(request).Answer? && synthesise(generate(request).text).SynthesisError?
    ensures var r := RunScript(state, rerun, generate, synthesise);
      var s := UpdateContext(state, rerun);
      var request := BuildRequest(SelectInput(rerun.audio, rerun.text).value, s.context.value);
      && !r.aborted
      && r.trace == [Generate(request), ShowAnswer(generate(request).text), Synthesize(generate(request).text)]
      && forall i :: 0 <= i < |r.trace| ==> !r.trace[i].PlayAudio?
  {
  }

  /** A stream that joins to no bytes (no chunks, or only empty ones) is treated
      like no audio: nothing is played. */
  lemma EmptyAudioNotPlayed(state: SessionState, rerun: Rerun,
                            generate: seq<Part> -> Generation,
                            synthesise: string -> Synthesis)
    requires HasInput(rerun.audio, rerun.text)
    requires var s := UpdateContext(state, rerun);
      var request := BuildRequest(SelectInput(rerun.audio, rerun.text).value, s.context.value);
      generate(request).Answer? && PlayVoice(synthesise(generate(request).text)) == Some([])
    ensures var r := RunScript(state, rerun, generate, synthesise);
      !r.aborted && forall i :: 0 <= i < |r.trace| ==> !r.trace[i].PlayAudio?
  {
  }

  /** A memorise action replaces the context wholesale: the whole rerun,
      state and effects, is the same whatever was stored before. */
  lemma MemoriseReplacesWholesale(s1: SessionState, s2: SessionState, rerun: Rerun,
                                  generate: seq<Part> -> Generation,
                                  synthesise: string -> Synthesis)
    requires Memorises(rerun)
    ensures RunScript(s1, rerun, generate, synthesise) == RunScript(s2, rerun, generate, synthesise)
    ensures RunScript(s1, rerun, generate, synthesise).state.context == Some(Corpus(rerun.uploaded))
  {
  }

  /** The request of a rerun is built from the context as it stands after that
      rerun's own memorise action; on a fresh session with none, the context is
      `""` and the instruction is the bare preamble. */
  lemma RequestUsesCurrentContext(state: SessionState, rerun: Rerun,
                                  generate: seq<Part> -> Generation,
                                  synthesise: string -> Synthesis)
    requires HasInput(rerun.audio, rerun.text)
    ensures var r := RunScript(state, rerun, generate, synthesise);
      var content := SelectInput(rerun.audio, rerun.text).value;
      r.trace[0] == Generate(BuildRequest(content, r.state.context.value))
    ensures state == Fresh && !Memorises(rerun) ==>
      var r := RunScript(state, rerun, generate, synthesise);
      r.state.context == Some("") && SystemInstruction(r.state.context.value) == Preamble
  {
  }

  // ---------------------------------------------------------------------------
  // The session across reruns

  /** The session state after a series of reruns (the services do not affect it). */
  function RunAll(state: SessionState, reruns: seq<Rerun>): SessionState
    decreases reruns
  {
    if reruns == [] then state else RunAll(UpdateContext(state, reruns[0]), reruns[1..])
  }

  /** The uploads of the last rerun that memorised, if any. */
  function LastMemorised(reruns: seq<Rerun>): Option<seq<PdfFile>> {
    if reruns == [] then None
    else match LastMemorised(reruns[1..])
      case Some(files) => Some(files)
      case None => if Memorises(reruns[0]) then Some(reruns[0].uploaded) else None
  }

  /** After any series of reruns the stored context is the corpus of the last
      memorised upload (earlier ones leave no trace), or, if none was memorised,
      what was stored before, `""` for a fresh session. */
  lemma {:induction false} ContextIsLastMemorised(state: SessionState, reruns: seq<Rerun>)
    requires reruns != [] || state.context.Some?
    ensures RunAll(state, reruns).context == Some(
      match LastMemorised(reruns)
      case Some(files) => Corpus(files)
      case None => state.context.GetOr(""))
    decreases reruns
  {
    if reruns != [] {
      var next := UpdateContext(state, reruns[0]);
      ContextIsLastMemorised(next, reruns[1..]);
    }
  }

  /** A fresh session's context is `""` until the first memorise action. */
  lemma FreshContextEmpty(reruns: seq<Rerun>)
    requires reruns != []
    requires forall i :: 0 <= i < |reruns| ==> !Memorises(reruns[i])
    ensures RunAll(Fresh, reruns).context == Some("")
  {
    NoMemoriseNoLast(reruns);
    ContextIsLastMemorised(Fresh, reruns);
  }

  lemma {:induction false} NoMemoriseNoLast(reruns: seq<Rerun>)
    requires forall i :: 0 <= i < |reruns| ==> !Memorises(reruns[i])
    ensures LastMemorised(reruns) == None
  {
    if reruns != [] {
      NoMemoriseNoLast(reruns[1..]);
    }
  }
}
