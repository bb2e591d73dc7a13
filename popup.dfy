/** The toolbar popup (`Popup`): a status line, an output section showing the rendered summary,
    an error section, and the action buttons. Browser calls become inputs: the stored settings,
    the active tab, the content script's answer and the background coordinator's answer. */
module PopupUi {
  import opened Wrappers
  import opened Text
  import opened Messages
  import opened Markdown
  import Background
  import Content

  const ConfigureKey: string := "Please configure your API key in the options page."
  const DefaultProvider: string := "openai"
  const ErrorStatus: string := "Error occurred"
  const SuccessStatus: string := "Summary generated successfully"
  const NoActiveTab: string := "No active tab found"
  const NoPageText: string := "No readable content found on this page."
  const NoSelection: string := "No text selected. Please select at least 50 characters."

  /** `Ready to summarize (${provider || 'openai'})`. */
  function ReadyStatus(provider: Option<string>): (r: string)
    ensures StartsWith(r, "Ready to summarize (") && EndsWith(r, ")")
    ensures IsInfix(OrElse(provider, DefaultProvider), r)
  {
    var name := OrElse(provider, DefaultProvider);
    Concat3Ends("Ready to summarize (", name, ")");
    ConcatInfixAt("Ready to summarize (", name, ")");
    "Ready to summarize (" + name + ")"
  }

  /** A stored provider names itself in the status; an unset or empty one reads as `openai`. */
  lemma ReadyStatusNamesProvider(provider: Option<string>)
    ensures Truthy(provider) ==> IsInfix(provider.value, ReadyStatus(provider))
    ensures !Truthy(provider) ==> ReadyStatus(provider) == ReadyStatus(Some(DefaultProvider))
  {
  }

  /** The checks before a request is sent: a tab with an id, a content-script answer, and a
      non-empty text in it. The result is that text, or the message of the error thrown. */
  function TextToSummarize(tab: Background.Tab, answer: Result<Option<Content.Reply>>, noText: string): (r: Result<string>)
    ensures r.Ok? <==> (Background.HasTabId(tab.id) && answer.Ok? && answer.value.Some?
      && Truthy(answer.value.value.text))
    ensures r.Ok? ==> r.value == answer.value.value.text.value && r.value != ""
    ensures !Background.HasTabId(tab.id) ==> r == Err(NoActiveTab)
    ensures Background.HasTabId(tab.id) && answer.Err? ==> r == Err(answer.message)
    ensures Background.HasTabId(tab.id) && answer.Ok? && r.Err? ==> r == Err(noText)
  {
    if !Background.HasTabId(tab.id) then Err(NoActiveTab)
    else if answer.Err? then Err(answer.message)
    else if answer.value.None? || !Truthy(answer.value.value.text) then Err(noText)
    else Ok(answer.value.value.text.value)
  }

  class Popup {
    /** The status line's text. */
    var status: string
    /** The output element's HTML. */
    var outputHtml: string
    /** Whether the output section lacks the `hidden` class. */
    var outputVisible: bool
    /** The error element's text. */
    var errorText: string
    /** Whether the error section lacks the `hidden` class. */
    var errorVisible: bool
    /** Whether the `.action-btn` buttons are disabled. */
    var buttonsDisabled: bool
    /** The `RUN_SUMMARY` messages sent to the background coordinator, oldest first. */
    var sent: seq<SummaryRequest>

    /** The output and the error section are never visible together. */
    predicate Valid()
      reads this
    {
      !(outputVisible && errorVisible)
    }

    /** The popup displays `d`: the rendered summary in the output section, or the error text in
        the error section; the other section hidden, and the status to match. */
    predicate Showing(d: Display)
      reads this
    {
      match d
      case ShowSummary(summary) =>
        outputVisible && !errorVisible && outputHtml == RenderMarkdown(summary) && status == SuccessStatus
      case ShowError(message) =>
        errorVisible && !outputVisible && errorText == message && status == ErrorStatus
    }

    /** The popup as loaded: both sections hidden, nothing sent. */
    constructor()
      ensures Valid() && !outputVisible && !errorVisible && !buttonsDisabled && sent == []
      ensures status == "" && outputHtml == "" && errorText == ""
    {
      status := "";
      outputHtml := "";
      outputVisible := false;
      errorText := "";
      errorVisible := false;
      buttonsDisabled := false;
      sent := [];
    }

    /** `updateStatus`. */
    method UpdateStatus(message: string)
      modifies this
      ensures status == message
      ensures outputHtml == old(outputHtml) && outputVisible == old(outputVisible)
      ensures errorText == old(errorText) && errorVisible == old(errorVisible)
      ensures buttonsDisabled == old(buttonsDisabled) && sent == old(sent)
    {
      status := message;
    }

    /** `showOutput`: the rendered summary becomes visible and the error section is hidden. */
    method ShowOutput(summary: string)
      modifies this
      ensures Valid() && outputVisible && !errorVisible
      ensures outputHtml == RenderMarkdown(summary) && '\n' !in outputHtml
      ensures status == old(status) && errorText == old(errorText)
      ensures buttonsDisabled == old(buttonsDisabled) && sent == old(sent)
    {
      outputHtml := RenderMarkdown(summary);
      outputVisible := true;
      errorVisible := false;
    }

    /** `showError`: the message becomes visible, the output section is hidden, and the status
        says an error occurred. */
    method ShowError(message: string)
      modifies this
      ensures Valid() && Showing(Display.ShowError(message))
      ensures outputHtml == old(outputHtml)
      ensures buttonsDisabled == old(buttonsDisabled) && sent == old(sent)
    {
      errorText := message;
      errorVisible := true;
      outputVisible := false;
      UpdateStatus(ErrorStatus);
    }

    /** `hideOutput`. */
    method HideOutput()
      requires Valid()
      modifies this
      ensures Valid() && !outputVisible && errorVisible == old(errorVisible)
      ensures status == old(status) && outputHtml == old(outputHtml) && errorText == old(errorText)
      ensures buttonsDisabled == old(buttonsDisabled) && sent == old(sent)
    {
      outputVisible := false;
    }

    /** `hideError`. */
    method HideError()
      requires Valid()
      modifies this
      ensures Valid() && !errorVisible && outputVisible == old(outputVisible)
      ensures status == old(status) && outputHtml == old(outputHtml) && errorText == old(errorText)
      ensures buttonsDisabled == old(buttonsDisabled) && sent == old(sent)
    {
      errorVisible := false;
    }

    /** `disableButtons`. */
    method DisableButtons()
      modifies this
      ensures buttonsDisabled
      ensures status == old(status) && outputHtml == old(outputHtml) && errorText == old(errorText)
      ensures outputVisible == old(outputVisible) && errorVisible == old(errorVisible) && sent == old(sent)
    {
      buttonsDisabled := true;
    }

    /** `handleResponse`: the summary exactly when the answer is a success with a non-empty
        summary, else the answer's error or the default message. */
    method HandleResponse(response: SummaryResponse)
      modifies this
      ensures Valid() && Showing(Present(response))
      ensures Present(response).ShowSummary? ==> errorText == old(errorText)
      ensures Present(response).ShowError? ==> outputHtml == old(outputHtml)
      ensures buttonsDisabled == old(buttonsDisabled) && sent == old(sent)
    {
      if response.ok && Truthy(response.summary) {
        ShowOutput(response.summary.value);
        UpdateStatus(SuccessStatus);
      } else {
        ShowError(OrElse(response.error, FailedToGenerate));
      }
    }

    /** `checkConfiguration`: without an API key the popup asks for one and disables the action
        buttons; with one, the status names the provider, `openai` when none is stored. */
    method CheckConfiguration(apiKey: Option<string>, provider: Option<string>)
      modifies this
      ensures !Truthy(apiKey) ==> Valid() && Showing(Display.ShowError(ConfigureKey)) && buttonsDisabled
      ensures !Truthy(apiKey) ==> outputHtml == old(outputHtml)
      ensures Truthy(apiKey) ==> status == ReadyStatus(provider) && buttonsDisabled == old(buttonsDisabled)
      ensures Truthy(apiKey) ==> outputVisible == old(outputVisible) && errorVisible == old(errorVisible)
      ensures Truthy(apiKey) ==> outputHtml == old(outputHtml) && errorText == old(errorText)
      ensures sent == old(sent)
    {
      if !Truthy(apiKey) {
        ShowError(ConfigureKey);
        DisableButtons();
      } else {
        UpdateStatus(ReadyStatus(provider));
      }
    }

    /** The body shared by `summarizePage` and `summarizeSelection`: both sections are hidden,
        the text is fetched from the content script, a request is sent for it, and its answer is
        shown; any error along the way is shown instead. */
    method Summarize(mode: Mode, startStatus: string, noText: string, tab: Background.Tab,
                     contentAnswer: Result<Option<Content.Reply>>, coordinatorAnswer: Result<SummaryResponse>)
      requires Valid()
      modifies this
      ensures Valid()
      ensures var text := TextToSummarize(tab, contentAnswer, noText);
        && (text.Err? ==> sent == old(sent) && Showing(Display.ShowError(text.message)))
        && (text.Ok? ==> sent == old(sent) + [SummaryRequest(mode, text.value, tab.title, tab.url)])
        && (text.Ok? && coordinatorAnswer.Err? ==> Showing(Display.ShowError(coordinatorAnswer.message)))
        && (text.Ok? && coordinatorAnswer.Ok? ==> Showing(Present(coordinatorAnswer.value)))
      ensures var text := TextToSummarize(tab, contentAnswer, noText);
        && (text.Err? || coordinatorAnswer.Err? || Present(coordinatorAnswer.value).ShowError? ==> outputHtml == old(outputHtml))
        && (text.Ok? && coordinatorAnswer.Ok? && Present(coordinatorAnswer.value).ShowSummary? ==> errorText == old(errorText))
      ensures buttonsDisabled == old(buttonsDisabled)
    {
      UpdateStatus(startStatus);
      HideOutput();
      HideError();
      var text := TextToSummarize(tab, contentAnswer, noText);
      if text.Err? {
        ShowError(text.message);
        return;
      }
      UpdateStatus("Generating summary...");
      sent := sent + [SummaryRequest(mode, text.value, tab.title, tab.url)];
      if coordinatorAnswer.Err? {
        ShowError(coordinatorAnswer.message);
      } else {
        HandleResponse(coordinatorAnswer.value);
      }
    }

    /** `summarizePage` (the Summarize Page button). */
    method SummarizePage(tab: Background.Tab, contentAnswer: Result<Option<Content.Reply>>,
                         coordinatorAnswer: Result<SummaryResponse>)
      requires Valid()
      modifies this
      ensures Valid()
      ensures var text := TextToSummarize(tab, contentAnswer, NoPageText);
        && (text.Err? ==> sent == old(sent) && Showing(Display.ShowError(text.message)))
        && (text.Ok? ==> sent == old(sent) + [SummaryRequest(Mode.Page, text.value, tab.title, tab.url)])
        && (text.Ok? && coordinatorAnswer.Err? ==> Showing(Display.ShowError(coordinatorAnswer.message)))
        && (text.Ok? && coordinatorAnswer.Ok? ==> Showing(Present(coordinatorAnswer.value)))
      ensures var text := TextToSummarize(tab, contentAnswer, NoPageText);
        && (text.Err? || coordinatorAnswer.Err? || Present(coordinatorAnswer.value).ShowError? ==> outputHtml == old(outputHtml))
        && (text.Ok? && coordinatorAnswer.Ok? && Present(coordinatorAnswer.value).ShowSummary? ==> errorText == old(errorText))
      ensures buttonsDisabled == old(buttonsDisabled)
    {
      Summarize(Mode.Page, "Extracting page content...", NoPageText, tab, contentAnswer, coordinatorAnswer);
    }

    /** `summarizeSelection` (the Summarize Selection button). */
    method SummarizeSelection(tab: Background.Tab, contentAnswer: Result<Option<Content.Reply>>,
                              coordinatorAnswer: Result<SummaryResponse>)
      requires Valid()
      modifies this
      ensures Valid()
      ensures var text := TextToSummarize(tab, contentAnswer, NoSelection);
        && (text.Err? ==> sent == old(sent) && Showing(Display.ShowError(text.message)))
        && (text.Ok? ==> sent == old(sent) + [SummaryRequest(Mode.Selection, text.value, tab.title, tab.url)])
        && (text.Ok? && coordinatorAnswer.Err? ==> Showing(Display.ShowError(coordinatorAnswer.message)))
        && (text.Ok? && coordinatorAnswer.Ok? ==> Showing(Present(coordinatorAnswer.value)))
      ensures var text := TextToSummarize(tab, contentAnswer, NoSelection);
        && (text.Err? || coordinatorAnswer.Err? || Present(coordinatorAnswer.value).ShowError? ==> outputHtml == old(outputHtml))
        && (text.Ok? && coordinatorAnswer.Ok? && Present(coordinatorAnswer.value).ShowSummary? ==> errorText == old(errorText))
      ensures buttonsDisabled == old(buttonsDisabled)
    {
      Summarize(Mode.Selection, "Getting selection...", NoSelection, tab, contentAnswer, coordinatorAnswer);
    }
  }
}
