# Virtual AI teacher — functional model of the page script

A Dafny model of the statable logic of the single-page Streamlit assistant in
`app.py`. A student uploads PDF course notes and asks a question, typed or
recorded. The page then:

1. builds a request for the Gemini generation service from the course text,
2. shows the written answer,
3. voices the answer through an ElevenLabs clone.

The model covers four pieces of that script:

- **Corpus assembly** (`Ingest`, `get_pdf_text`). Each uploaded file is
  represented by the page texts the extraction loop sees. It is either
  `Readable(pages)`, or `FailsAfter(pagesRead)` when opening the file or
  extracting a later page raised after some pages had been read. The method
  `GetPdfText` follows the source's nested loop. It is proved equal to a
  reference definition: the ordered concatenation, files then pages, of
  `page + "\n"` for every non-empty page.
- **Prompt construction** (`Prompt`, `process_interaction`). The fixed French
  preamble is followed by the context cut to its first 50000 characters. A
  typed question yields one text part: the instruction, then
  `"\n\nQuestion de l'élève : "`, then the question. A recording yields two
  parts: the instruction, then the untouched payload tagged with its media type.
- **Input dispatch** (`Dispatch`, lines 111-122). A recording wins over text. A
  recording is tagged `"audio/wav"`. An empty or missing question with no
  recording builds no request.
- **Session context and voice fallback** (`Session`).
  - The stored context is replaced wholesale by each memorise action.
  - It is initialised to `""` only when absent.
  - The answer is shown before synthesis is requested.
  - A synthesis failure, or an empty audio stream, means nothing is played.
  - `RunScript` models one rerun of the page. `RunAll` models the session
    across reruns.

The generation and speech services are function parameters of the model:
`generate` maps a request to `Answer(text)` or `GenerationError`, and
`synthesise` maps a text to the audio chunks streamed back or `SynthesisError`.
Observable effects of a rerun are a trace of events: `Generate(request)`,
`ShowAnswer(text)`, `Synthesize(text)` and `PlayAudio(bytes)`.

Files: `common.dfy` (bytes, `Option`, flattening), `ingest.dfy`, `prompt.dfy`,
`dispatch.dfy`, `session.dfy`.

Behaviour of `app.py` worth knowing, which the model reproduces:

- No conversation history is kept. Nothing in `app.py` stores or sends
  previous turns, so each request holds only the instruction and the new input.
- A generation error is not caught. `process_interaction` is called outside any
  `try`, so an error ends the rerun (`aborted`) after the request and before
  anything is shown.
- Extraction errors are caught per file (lines 32-39). When a page raises, the
  pages after it in the same file are lost, while the pages read before it
  stay in the corpus (`FailsAfter`).

## Model

| member | source | states |
|---|---|---|
| Ingest.GetPdfText | app.py:28-40 | the text built is the in-order concatenation, over files then pages, of `page + "\n"` for every non-empty page read, and its length is the sum of `len(page) + 1` over those pages |
| Ingest.CorpusLength | app.py:34-37 | the corpus length equals the sum of `len(page) + 1` over the non-empty pages read; empty pages add nothing |
| Ingest.EmptyPageContributesNothing | app.py:36-37 | inserting an empty page anywhere in any readable file, among any other files, leaves the corpus unchanged |
| Ingest.FailingFileIsolated | app.py:31-39 | a file that raises splits the corpus exactly: the files before it, the pages it yielded before raising, then every later file in full |
| Ingest.FailureKeepsReadPrefix | app.py:32-39 | a file that raises after k pages contributes exactly its first k pages' text, a prefix of what it contributes when read to the end |
| Ingest.CorpusLinesAreNonEmptyPages | app.py:34-37 | when no page text holds a line feed, splitting the corpus at line feeds gives back the non-empty pages in order (page boundaries are otherwise lost) |
| Prompt.TruncateContext | app.py:50 | the embedded context is a prefix of the stored one, never longer than 50000 characters, the whole context when it fits and exactly 50000 characters otherwise |
| Prompt.SystemInstruction | app.py:47-51 | the instruction starts with the fixed preamble and continues with the prefix of the context of length `min(len(context), 50000)`, and is the bare preamble when the context is `""` |
| Prompt.InstructionRoundTrip | app.py:47-51 | the context read back from the instruction is exactly the first `min(len(context), 50000)` characters of the context |
| Prompt.SameInstructionIff | app.py:50 | two contexts give the same instruction if and only if they agree on their truncated prefixes |
| Prompt.LongContextCut | app.py:50 | two contexts longer than 50000 characters that share their first 50000 give the same request |
| Prompt.BuildRequest | app.py:53-57 | a question gives one text part that starts with the preamble and from which the question reads back verbatim; a recording gives two parts, the instruction with the truncated context, then the payload unchanged |
| Prompt.QuestionRoundTrip | app.py:57 | the question reads back from the text prompt, is a suffix of it, and is not truncated |
| Prompt.TextPromptInjective | app.py:57 | for a fixed context, distinct questions give distinct prompts |
| Dispatch.SelectInput | app.py:111-122 | content is selected exactly when a recording or a non-empty question is present; a recording is passed on unchanged as `"audio/wav"` content; otherwise the non-empty question is passed on |
| Dispatch.AudioTakesPriority | app.py:114-119 | with a recording present the typed text has no influence on the selection |
| Dispatch.SelectedRequestShape | app.py:111-125 | the request for a recording is the instruction plus the `"audio/wav"` payload; for a question, the single text prompt |
| Session.PlayVoice | app.py:61-72 | no audio exactly when synthesis raised; otherwise the joined stream, as long as all chunks together, each chunk in place at its offset |
| Session.UpdateContext | app.py:88-96 | after the update a context is always stored: the new corpus after a memorise action, the previous context otherwise, `""` when none was stored |
| Session.Respond | app.py:122-134 | the request goes out first; a generation error ends the rerun with nothing shown; otherwise the answer is shown, then synthesis is asked for that same answer, and the joined audio is played, as the last event, exactly when it is non-empty |
| Session.RunScript | app.py:88-134 | the session after a rerun is the context update; effects happen exactly when an input was present, and are then those of the answer pipeline on the selected input with the updated context; only such a rerun can abort |
| Session.AnswerBeforeVoice | app.py:127-134 | in every rerun, synthesis and playback come after the written answer, synthesis voices the shown text, and at most one request is made |
| Session.SynthesisFailureKeepsAnswer | app.py:63-72 | when synthesis raises, the rerun completes with exactly the request, the generated answer shown, and its synthesis attempt; no audio is played |
| Session.EmptyAudioNotPlayed | app.py:132-134 | a stream that joins to no bytes (no chunks, or only empty ones) is treated like no audio: nothing is played |
| Session.MemoriseReplacesWholesale | app.py:88-92 | a memorise rerun is the same, state and effects, whatever context was stored before, and stores the new corpus |
| Session.RequestUsesCurrentContext | app.py:88-125 | the request is built from the context after this rerun's own memorise action; a fresh session without one uses `""` and the bare preamble |
| Session.ContextIsLastMemorised | app.py:88-96 | after any series of reruns the context is the corpus of the last memorised upload, or the earlier context (`""` when fresh) if none was memorised |
| Session.FreshContextEmpty | app.py:94-96 | a fresh session keeps the context `""` until the first memorise action |

## Left out

- Page configuration, titles, sidebar, columns, spinners and the `st.error`, `st.warning` and `st.success` messages (lines 6-11, 39, 71, 76-87, 90, 92): presentation only. The warning printed when synthesis fails and the character count shown after memorising are therefore not events of the trace.
- Secrets loading and `st.stop()` (lines 13-24): configuration read once at start-up.
- PDF parsing (`PdfReader`, `extract_text`): the library is not part of this model. A file is given by the page texts it yields and whether it raised. A page whose `extract_text` returns `None` is represented by `""`, which the source treats the same way.
- The Gemini and ElevenLabs calls are opaque parameters. So are the model name `gemini-1.5-flash`, the voice identity and the synthesis model `eleven_multilingual_v2`.
- The `is_audio` flag of `process_interaction` is folded into the `Question` / `Recording` tag of the content. The only caller always sets the flag to match the content, and the request sent for a mismatched pair (a dictionary formatted into a string) is not modelled.
- Audio encoding, the `audio/mp3` format of the player and autoplay: the audio is opaque bytes.
- Integer widths: lengths and the 50000 limit are unbounded integers. Python's string slicing has no overflow to model.
