/** The envelopes exchanged between the popup, the content script and the background
    coordinator (`RUN_SUMMARY` requests and their `{ok, summary?, error?}` answers), and the
    single rule both user interfaces apply to an answer. */
module Messages {
  import opened Wrappers
  import opened Text

  datatype Mode = Page | Selection

  /** The payload of a `RUN_SUMMARY` message. */
  datatype SummaryRequest = SummaryRequest(mode: Mode, text: string, title: Option<string>, url: Option<string>)

  /** `{ok, summary?, error?}`; an absent field is `None`. */
  datatype SummaryResponse = SummaryResponse(ok: bool, summary: Option<string>, error: Option<string>)

  function Succeeded(summary: string): SummaryResponse {
    SummaryResponse(true, Some(summary), None)
  }

  function Failed(error: string): SummaryResponse {
    SummaryResponse(false, None, Some(error))
  }

  /** The shape every envelope built by the background coordinator has: `ok` exactly when a
      summary is present, and an error exactly when it is not. */
  predicate WellFormed(r: SummaryResponse) {
    r.ok == r.summary.Some? && r.ok != r.error.Some?
  }

  /** Fewest characters a trimmed selection must have to be summarized. */
  const MinSelectionLength: nat := 50

  /** The selection rule shared by the context menu and the content script: trim the raw
      selection and reject it when it is absent or shorter than 50 characters. */
  function UsableSelection(raw: Option<string>): (r: Option<string>)
    ensures r.Some? <==> raw.Some? && |Trim(raw.value)| >= MinSelectionLength
    ensures r.Some? ==> r.value == Trim(raw.value) && IsTrimmed(r.value)
  {
    match raw
    case None => None
    case Some(s) =>
      var text := Trim(s);
      if text == "" || |text| < MinSelectionLength then None else Some(text)
  }

  const FailedToGenerate: string := "Failed to generate summary"

  /** What a user interface shows for an answer. */
  datatype Display = ShowSummary(summary: string) | ShowError(message: string)

  /** `if (response.ok && response.summary) show(summary) else showError(response.error || 'Failed to generate summary')`,
      shared by the popup and the content script. */
  function Present(r: SummaryResponse): (d: Display)
    ensures d.ShowSummary? <==> r.ok && Truthy(r.summary)
    ensures d.ShowSummary? ==> d.summary == r.summary.value && d.summary != ""
    ensures d.ShowError? && Truthy(r.error) ==> d.message == r.error.value
    ensures d.ShowError? && !Truthy(r.error) ==> d.message == FailedToGenerate
    ensures d.ShowError? ==> d.message != ""
  {
    if r.ok && Truthy(r.summary) then ShowSummary(r.summary.value)
    else ShowError(OrElse(r.error, FailedToGenerate))
  }

  /** A well-formed success is shown as exactly the summary it carries, provided it is not empty;
      a well-formed failure is shown as exactly its error, provided it is not empty. */
  lemma PresentWellFormed(r: SummaryResponse)
    requires WellFormed(r)
    ensures r.ok && r.summary.value != "" ==> Present(r) == ShowSummary(r.summary.value)
    ensures !r.ok && r.error.value != "" ==> Present(r) == ShowError(r.error.value)
  {
  }
}
