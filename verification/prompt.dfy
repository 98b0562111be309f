/** Request assembly for the generation service (`process_interaction`, app.py:42-59).

    The generation service itself is not part of this model; this module builds
    the value handed to it: a sequence of parts, each either text or a tagged
    binary payload. */
module Prompt {
  import opened Common

  /** Characters of course context kept in the instruction (`context[:50000]`). */
  const ContextLimit: nat := 50000

  /** The fixed pedagogical instruction that precedes the course context. */
  const Preamble: string :=
    "Tu es un professeur expert en NSI et Mathématiques. "
    + "Réponds de manière claire, concise et pédagogique. "
    + "Utilise ce contexte de cours pour tes réponses : \n\n"

  /** Placed between the instruction and a typed question. */
  const QuestionSeparator: string := "\n\nQuestion de l'élève : "

  /** One part of an outbound request. */
  datatype Part = Text(text: string) | Blob(mimeType: string, data: seq<byte>)

  /** What the student submitted: a typed question, or a recording with its media type. */
  datatype UserContent = Question(text: string) | Recording(mimeType: string, data: seq<byte>)

  /** The context as embedded: a silent prefix-take, never an error. */
  function TruncateContext(context: string): (r: string)
    ensures r <= context
    ensures |r| <= ContextLimit
    ensures |context| <= ContextLimit ==> r == context
    ensures |context| > ContextLimit ==> |r| == ContextLimit
  {
    if |context| <= ContextLimit then context else context[..ContextLimit]
  }

  /** The instruction sent on both paths: the preamble, then the truncated context. */
  function SystemInstruction(context: string): (r: string)
    ensures Preamble <= r
    ensures |r| == |Preamble| + (if |context| <= ContextLimit then |context| else ContextLimit)
    ensures r[|Preamble|..] <= context
    ensures context == "" ==> r == Preamble
  {
    Preamble + TruncateContext(context)
  }

  /** Reads back the context embedded in an instruction; `None` when the text
      does not start with the preamble. */
  function EmbeddedContext(instruction: string): Option<string> {
    if Preamble <= instruction then Some(instruction[|Preamble|..]) else None
  }

  /** The single prompt of the text path. */
  function TextPrompt(context: string, question: string): string {
    SystemInstruction(context) + QuestionSeparator + question
  }

  /** Reads back the question from a text-path prompt built against `context`. */
  function QuestionOf(context: string, prompt: string): Option<string> {
    var head := SystemInstruction(context) + QuestionSeparator;
    if head <= prompt then Some(prompt[|head|..]) else None
  }

  /** The request `process_interaction` sends for the given content and context. */
  function BuildRequest(content: UserContent, context: string): (parts: seq<Part>)
    ensures content.Question? ==>
      && |parts| == 1
      && parts[0].Text?
      && Preamble <= parts[0].text
      && QuestionOf(context, parts[0].text) == Some(content.text)
    ensures content.Recording? ==>
      && |parts| == 2
      && parts[0].Text?
      && EmbeddedContext(parts[0].text) == Some(TruncateContext(context))
      && parts[1] == Blob(content.mimeType, content.data)
  {
    match content
    case Question(q) =>
      QuestionRoundTrip(context, q);
      [Text(TextPrompt(context, q))]
    case Recording(mime, data) =>
      InstructionRoundTrip(context);
      [Text(SystemInstruction(context)), Blob(mime, data)]
  }

  // ---------------------------------------------------------------------------
  // Properties

  /** The embedded context can be read back from the instruction, and it is
      exactly the first `min(|context|, 50000)` characters of the context. */
  lemma InstructionRoundTrip(context: string)
    ensures EmbeddedContext(SystemInstruction(context)) == Some(TruncateContext(context))
    ensures |TruncateContext(context)| == if |context| <= ContextLimit then |context| else ContextLimit
    ensures TruncateContext(context) == context[..|TruncateContext(context)|]
  {
  }

  /** Two contexts yield the same instruction exactly when they agree on their
      first 50000 characters; everything past the limit is never seen. */
  lemma SameInstructionIff(c1: string, c2: string)
    ensures SystemInstruction(c1) == SystemInstruction(c2) <==> TruncateContext(c1) == TruncateContext(c2)
  {
  }

  /** A context longer than the limit is embedded as its prefix of exactly 50000
      characters; so two such contexts sharing that prefix give the same request. */
  lemma LongContextCut(c1: string, c2: string, content: UserContent)
    requires |c1| > ContextLimit && |c2| > ContextLimit
    requires c1[..ContextLimit] == c2[..ContextLimit]
    ensures BuildRequest(content, c1) == BuildRequest(content, c2)
  {
  }

  /** The question can be read back from the text prompt, is its suffix, and is
      not truncated whatever its length. */
  lemma QuestionRoundTrip(context: string, question: string)
    ensures QuestionOf(context, TextPrompt(context, question)) == Some(question)
    ensures |question| <= |TextPrompt(context, question)|
    ensures TextPrompt(context, question)[|TextPrompt(context, question)| - |question|..] == question
  {
  }

  /** For a fixed context, distinct questions give distinct text prompts. */
  lemma TextPromptInjective(context: string, q1: string, q2: string)
    requires TextPrompt(context, q1) == TextPrompt(context, q2)
    ensures q1 == q2
  {
    QuestionRoundTrip(context, q1);
    QuestionRoundTrip(context, q2);
  }
}
