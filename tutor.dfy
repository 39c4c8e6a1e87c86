/** The voice-tutor turn: the prompt composer, the reply the learner sees and the
    session record handed to persistence. */
module Tutor {
  import opened Wrappers
  import opened Seqs
  import opened Text
  import opened Content
  import opened Retrieval

  /** The persona used when no stored question-generation prompt exists. */
  const DefaultPersona := "You are a senior thoracic surgery consultant providing medical education."

  /** The fixed text before the transcript; it opens with the persona sentence. */
  const PromptLead := DefaultPersona + " A medical student/resident asked: \""

  /** The fixed text between the transcript and the context block. */
  const PromptBrief :=
    "\". \n\nProvide a comprehensive, educational response that:\n"
    + "1. Directly answers their question\n"
    + "2. Includes relevant clinical guidelines (NICE, BTS, ISCP)\n"
    + "3. Provides evidence-based information\n"
    + "4. Uses appropriate medical terminology\n"
    + "5. Includes practical clinical pearls\n"
    + "6. References the provided educational content when relevant\n"
    + "7. Keeps the tone professional but approachable\n\n"
    + "Focus on thoracic surgery topics including emergency procedures, VATS techniques, "
    + "lung cancer management, chest trauma, and post-operative care."

  const ContextHeader := "\n\nRelevant educational content from the library:\n"
  const MediaPlaceholder := "Media content available"
  const Ellipsis := "..."
  const ExcerptLength := 200

  /** The message shown when any remote step of the turn fails. */
  const ApologyMessage :=
    "I apologize, but I encountered an error processing your question. Please try again."

  /** The template selected from the stored question-generation prompts: the first one,
      or the default persona. The composer below never reads it. */
  function BasePrompt(stored: seq<string>): (p: string)
    ensures stored == [] ==> p == DefaultPersona
    ensures stored != [] ==> p == stored[0]
  {
    if |stored| > 0 then stored[0] else DefaultPersona
  }

  /** What one matched item contributes after its title. A text item gives the first
      200 characters of its body (all of it when shorter), always followed by "...";
      any other item gives its description, or the placeholder when that is absent or empty. */
  function Summary(item: ContentItem): (s: string)
    ensures item.contentType == Text ==>
      |s| == (if |item.content| < ExcerptLength then |item.content| else ExcerptLength) + |Ellipsis|
      && s[..|s| - |Ellipsis|] == item.content[..|s| - |Ellipsis|]
      && s[|s| - |Ellipsis|..] == Ellipsis
    ensures item.contentType != Text && item.description.Some? && item.description.value != "" ==>
      s == item.description.value
    ensures item.contentType != Text && (item.description.None? || item.description.value == "") ==>
      s == MediaPlaceholder
  {
    if item.contentType == Text then Take(item.content, ExcerptLength) + Ellipsis
    else if item.description.Some? && item.description.value != "" then item.description.value
    else MediaPlaceholder
  }

  /** The context line of one matched item: `- <title>: <summary>`. */
  function ContextLine(item: ContentItem): string {
    "- " + item.title + ": " + Summary(item)
  }

  /** One context line per match, in match order. */
  function ContextLines(matches: seq<ContentItem>): (lines: seq<string>)
    ensures |lines| == |matches|
    ensures forall i :: 0 <= i < |matches| ==> lines[i] == ContextLine(matches[i])
  {
    seq(|matches|, i requires 0 <= i < |matches| => ContextLine(matches[i]))
  }

  /** The block appended to the prompt: empty without matches, otherwise the header
      followed by the context lines joined by newlines. */
  function ContextBlock(matches: seq<ContentItem>): (block: string)
    ensures block == "" <==> matches == []
    ensures matches != [] ==> |block| >= |ContextHeader| && block[..|ContextHeader|] == ContextHeader
  {
    if matches == [] then ""
    else ContextHeader + Join(ContextLines(matches), "\n")
  }

  /** When no rendered line contains a newline of its own, the block after the header
      splits back into exactly one line per match, in match order. */
  lemma ContextBlockHasOneLinePerMatch(matches: seq<ContentItem>)
    requires matches != []
    requires forall item :: item in matches ==> '\n' !in ContextLine(item)
    ensures Split(ContextBlock(matches)[|ContextHeader|..], '\n') == ContextLines(matches)
  {
    var lines := ContextLines(matches);
    assert ContextBlock(matches)[|ContextHeader|..] == Join(lines, ['\n']);
    forall p | p in lines ensures '\n' !in p {
      var i :| 0 <= i < |lines| && lines[i] == p;
      assert matches[i] in matches;
    }
    SplitOfJoin(lines, '\n');
  }

  /** The generation prompt: the persona sentence and question phrasing, the transcript
      verbatim between quotes, the fixed brief, then the context block. */
  function ComposePrompt(transcript: string, matches: seq<ContentItem>): (p: string)
    ensures |p| == |PromptLead| + |transcript| + |PromptBrief| + |ContextBlock(matches)|
    ensures p[..|DefaultPersona|] == DefaultPersona
    ensures p[..|PromptLead|] == PromptLead
    ensures p[|PromptLead|..|PromptLead| + |transcript|] == transcript
    ensures p[|PromptLead| + |transcript|..|p| - |ContextBlock(matches)|] == PromptBrief
    ensures p[|p| - |ContextBlock(matches)|..] == ContextBlock(matches)
  {
    var block := ContextBlock(matches);
    FourPieces(PromptLead, transcript, PromptBrief, block);
    assert PromptLead[..|DefaultPersona|] == DefaultPersona;
    PromptLead + transcript + PromptBrief + block
  }

  /** Where each piece of a four-piece concatenation sits. */
  lemma FourPieces(a: string, b: string, c: string, d: string)
    ensures var s := a + b + c + d;
      && |s| == |a| + |b| + |c| + |d|
      && s[..|a|] == a
      && s[|a|..|a| + |b|] == b
      && s[|a| + |b|..|a| + |b| + |c|] == c
      && s[|s| - |d|..] == d
  {
  }

  /** Reads the transcript back out of a composed prompt. */
  function QuotedTranscript(p: string, matches: seq<ContentItem>): string
    requires |p| >= |PromptLead| + |PromptBrief| + |ContextBlock(matches)|
  {
    p[|PromptLead|..|p| - |PromptBrief| - |ContextBlock(matches)|]
  }

  /** The transcript is embedded verbatim: it can always be recovered from the prompt,
      so two different transcripts never compose the same prompt. */
  lemma TranscriptRecoverable(transcript: string, matches: seq<ContentItem>)
    ensures QuotedTranscript(ComposePrompt(transcript, matches), matches) == transcript
  {
  }

  /** The record handed to the session recorder after a successful generation. */
  datatype VoiceSession = VoiceSession(topic: string, transcript: string, response: string)

  /** The outcome of one press of the stop button. */
  datatype TurnOutcome =
    | Skipped
    | Answered(matches: seq<ContentItem>, prompt: string, reply: string, record: Option<VoiceSession>)

  /** One voice turn. `library` and `storedPrompts` are what the content and prompt
      queries returned; `generated` is the generation result (None on any failure before
      the reply is set); `saved` is whether the session record was then stored.
      A blank transcript does nothing; otherwise the learner sees the generated text when
      both generation and the save succeed, and the apology when either fails. */
  function VoiceTurn(topic: string, transcript: string, library: seq<ContentItem>,
                     storedPrompts: seq<string>, generated: Option<string>, saved: bool): (r: TurnOutcome)
    ensures r.Skipped? <==> Trim(transcript) == []
    ensures r.Answered? ==> r.matches == MatchContent(transcript, ActiveCorpus(library))
    ensures r.Answered? ==> |r.matches| <= 10 && IsSubsequence(r.matches, ActiveCorpus(library))
    ensures r.Answered? ==> r.prompt == ComposePrompt(transcript, r.matches)
    ensures r.Answered? && generated.None? ==> r.reply == ApologyMessage && r.record.None?
    ensures r.Answered? && generated.Some? && saved ==>
      r.reply == generated.value && r.record == Some(VoiceSession(topic, transcript, generated.value))
    ensures r.Answered? && generated.Some? && !saved ==> r.reply == ApologyMessage && r.record.None?
  {
    match Retrieve(transcript, library)
    case None => Skipped
    case Some(matches) =>
      var prompt := ComposePrompt(transcript, matches);
      match generated
      case None => Answered(matches, prompt, ApologyMessage, None)
      case Some(text) =>
        if saved then Answered(matches, prompt, text, Some(VoiceSession(topic, transcript, text)))
        else Answered(matches, prompt, ApologyMessage, None)
  }

  /** The stored template has no influence on the turn: whatever prompts are stored,
      the same prompt is sent. */
  lemma StoredTemplateIgnored(topic: string, transcript: string, library: seq<ContentItem>,
                              stored1: seq<string>, stored2: seq<string>, generated: Option<string>,
                              saved: bool)
    ensures VoiceTurn(topic, transcript, library, stored1, generated, saved)
         == VoiceTurn(topic, transcript, library, stored2, generated, saved)
  {
  }
}
