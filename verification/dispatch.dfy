/** Choice of what, if anything, is sent to the generation service on one
    rerun of the page (app.py:111-122). */
module Dispatch {
  import opened Common
  import opened Prompt

  /** Media type attached to every recording (app.py:115). */
  const AudioMimeType: string := "audio/wav"

  /** Picks the user's content from the two input widgets. A recording, when
      present, wins; otherwise a non-empty typed question; otherwise nothing
      (an empty string is falsy, as is an absent value). */
  function SelectInput(audio: Option<seq<byte>>, text: Option<string>): (r: Option<UserContent>)
    ensures r.Some? <==> HasInput(audio, text)
    ensures audio.Some? ==> r == Some(Recording(AudioMimeType, audio.value))
    ensures audio.None? && r.Some? ==> r == Some(Question(text.value)) && text.value != ""
  {
    if audio.Some? then Some(Recording(AudioMimeType, audio.value))
    else if text.Some? && text.value != "" then Some(Question(text.value))
    else None
  }

  /** Whether the widget values carry anything to answer. */
  predicate HasInput(audio: Option<seq<byte>>, text: Option<string>) {
    audio.Some? || (text.Some? && text.value != "")
  }

  // ---------------------------------------------------------------------------
  // Properties

  /** Audio takes priority: with a recording present, the typed text does not
      matter, and the recorded bytes are passed on unchanged as "audio/wav". */
  lemma AudioTakesPriority(data: seq<byte>, text: Option<string>)
    ensures SelectInput(Some(data), text) == Some(Recording(AudioMimeType, data))
    ensures forall other: Option<string> :: SelectInput(Some(data), text) == SelectInput(Some(data), other)
  {
  }

  /** The request built for the selected input: two parts ending in the
      untouched recording for audio, one text part ending in the question for text. */
  lemma SelectedRequestShape(audio: Option<seq<byte>>, text: Option<string>, context: string)
    requires HasInput(audio, text)
    ensures audio.Some? ==>
      BuildRequest(SelectInput(audio, text).value, context)
        == [Text(SystemInstruction(context)), Blob(AudioMimeType, audio.value)]
    ensures audio.None? ==>
      BuildRequest(SelectInput(audio, text).value, context)
        == [Text(TextPrompt(context, text.value))]
  {
  }
}
