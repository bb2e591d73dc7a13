/** The prompt template sent to the language model (`generatePrompt`). */
module Prompts {
  import opened Wrappers
  import opened Text
  import opened Messages

  /** The opening sentence of every prompt; the providers also send it as the system instruction. */
  const Instruction: string :=
    "You are a concise summarizer. Output clear bullets. Preserve key facts, numbers, and names. Avoid fluff."

  const Checklist: string :=
    "Please provide:\n1. A 1-line TL;DR at the top in **bold**\n2. 5-8 bullet points with key information\n3. Focus on the most important facts, figures, and insights\n\n"

  /** The closing sentence of every prompt. */
  const Closing: string := "Keep the summary concise but comprehensive."

  const Unknown: string := "Unknown"

  /** How the prompt names what is being summarized. */
  function Subject(mode: Mode): string {
    match mode
    case Page => "web page"
    case Selection => "selected text"
  }

  /** The line naming what is summarized. */
  function SubjectLine(mode: Mode): string {
    "Please provide a summary of the following " + Subject(mode) + ":"
  }

  /** The subject line with the blank lines around it. */
  function Lead(mode: Mode): string {
    "\n\n" + SubjectLine(mode) + "\n\n"
  }

  /** The context block minus the text: page metadata, or the selection label. */
  function ContextLabel(mode: Mode, title: Option<string>, url: Option<string>): string {
    match mode
    case Page => "Title: " + OrElse(title, Unknown) + "\nURL: " + OrElse(url, Unknown) + "\n\nContent:\n"
    case Selection => "Selected Text:\n"
  }

  /** Everything in front of the summarized text. */
  function Head(mode: Mode, title: Option<string>, url: Option<string>): string {
    Instruction + Lead(mode) + ContextLabel(mode, title, url)
  }

  /** Everything after the summarized text. */
  const Tail: string := "\n\n" + Checklist + Closing

  /** `generatePrompt(mode, text, title, url)`. */
  function GeneratePrompt(mode: Mode, text: string, title: Option<string>, url: Option<string>): string {
    Head(mode, title, url) + text + Tail
  }

  /** Every prompt opens with the summarizer instruction and closes with the request to keep the
      summary concise. */
  lemma PromptFrame(mode: Mode, text: string, title: Option<string>, url: Option<string>)
    ensures StartsWith(GeneratePrompt(mode, text, title, url), Instruction)
    ensures EndsWith(GeneratePrompt(mode, text, title, url), Closing)
  {
    var head := Head(mode, title, url);
    var r := GeneratePrompt(mode, text, title, url);
    Concat3Ends(head, text, Tail);
    Concat3Ends(Instruction, Lead(mode), ContextLabel(mode, title, url));
    StartsWithTransitive(r, head, Instruction);
    ConcatEndsWith("\n\n" + Checklist, Closing);
    EndsWithTransitive(r, Tail, Closing);
  }

  /** Recovers the summarized text from a prompt built for the given mode and page metadata. */
  function PromptText(prompt: string, mode: Mode, title: Option<string>, url: Option<string>): Option<string> {
    var head := Head(mode, title, url);
    if |head| + |Tail| <= |prompt| && prompt[..|head|] == head && prompt[|prompt| - |Tail|..] == Tail
    then Some(prompt[|head|..|prompt| - |Tail|])
    else None
  }

  /** The text reaches the model verbatim: it can be read back out of the prompt unchanged. */
  lemma PromptTextRoundTrip(mode: Mode, text: string, title: Option<string>, url: Option<string>)
    ensures PromptText(GeneratePrompt(mode, text, title, url), mode, title, url) == Some(text)
  {
    ConcatMiddle(Head(mode, title, url), text, Tail);
  }

  /** In page mode the prompt holds exactly `Title: <title or Unknown>\nURL: <url or Unknown>\n\nContent:\n<text>`;
      in selection mode it holds `Selected Text:\n<text>`; either way the text itself is in it. */
  lemma {:induction false} PromptEmbedsContext(mode: Mode, text: string, title: Option<string>, url: Option<string>)
    ensures mode == Page ==>
      IsInfix("Title: " + OrElse(title, Unknown) + "\nURL: " + OrElse(url, Unknown) + "\n\nContent:\n" + text,
              GeneratePrompt(mode, text, title, url))
    ensures mode == Selection ==> IsInfix("Selected Text:\n" + text, GeneratePrompt(mode, text, title, url))
    ensures IsInfix(text, GeneratePrompt(mode, text, title, url))
  {
    ContextInside(Instruction + Lead(mode), ContextLabel(mode, title, url), text, Tail);
  }

  /** The context block and the text that follows it are both part of the prompt. */
  lemma ContextInside(front: string, context: string, text: string, tail: string)
    ensures IsInfix(context + text, front + context + text + tail)
    ensures IsInfix(text, front + context + text + tail)
  {
    Infix4At(front, context, text, tail);
    ConcatInfixAt(front + context, text, tail);
  }

  /** The prompt names its subject: "web page" in page mode, "selected text" in selection mode. */
  lemma PromptNamesSubject(mode: Mode, text: string, title: Option<string>, url: Option<string>)
    ensures IsInfix("Please provide a summary of the following " + (if mode == Page then "web page" else "selected text") + ":",
                    GeneratePrompt(mode, text, title, url))
  {
    LeadInside(Instruction, SubjectLine(mode), ContextLabel(mode, title, url), text, Tail);
    SubjectLineText(mode);
  }

  /** A line set off by blank lines is part of any prompt that has it as its lead. */
  lemma LeadInside(instruction: string, line: string, context: string, text: string, tail: string)
    ensures IsInfix(line, instruction + ("\n\n" + line + "\n\n") + context + text + tail)
  {
    InfixInside(instruction, "\n\n", line, "\n\n", context + text + tail);
    assert instruction + ("\n\n" + line + "\n\n") + context + text + tail
        == instruction + ("\n\n" + line + "\n\n") + (context + text + tail);
  }

  lemma SubjectLineText(mode: Mode)
    ensures SubjectLine(mode) == "Please provide a summary of the following " + (if mode == Page then "web page" else "selected text") + ":"
  {
  }

  /** In selection mode the title and URL have no effect. */
  lemma SelectionIgnoresPageMetadata(text: string, title: Option<string>, url: Option<string>,
                                     title': Option<string>, url': Option<string>)
    ensures GeneratePrompt(Selection, text, title, url) == GeneratePrompt(Selection, text, title', url')
  {
  }

  /** A missing or empty title or URL is rendered as the literal `Unknown`, each on its own. */
  lemma MissingMetadataIsUnknown(mode: Mode, text: string, title: Option<string>, url: Option<string>)
    ensures !Truthy(title) ==> GeneratePrompt(mode, text, title, url) == GeneratePrompt(mode, text, Some(Unknown), url)
    ensures !Truthy(url) ==> GeneratePrompt(mode, text, title, url) == GeneratePrompt(mode, text, title, Some(Unknown))
  {
  }
}
