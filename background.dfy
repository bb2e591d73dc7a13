/** The background coordinator: answers `RUN_SUMMARY` messages and context-menu clicks by
    reading the stored settings, dispatching to the configured provider and folding the outcome
    into a `{ok, summary?, error?}` envelope. Storage contents and the provider's HTTP reply are
    inputs; the request sent and the `SUMMARY_RESULT` message posted to a tab are outputs. */
module Background {
  import opened Wrappers
  import opened Text
  import opened Messages
  import opened Prompts
  import opened Providers

  /** The settings read from synced storage; `None` for a key that was never stored. */
  datatype Settings = Settings(provider: Option<string>, apiKey: Option<string>, model: Option<string>, temperature: Option<real>)

  predicate HasApiKey(s: Settings) {
    Truthy(s.apiKey)
  }

  const ApiKeyMissing: string := "API key not configured. Please set it in the options page."
  const InvalidProvider: string := "Invalid provider"
  const MenuItemId: string := "summarize-selection"

  /** A browser tab as the extension APIs describe it. */
  datatype Tab = Tab(id: Option<int>, title: Option<string>, url: Option<string>)

  /** `chrome.tabs.sendMessage(tabId, {type: 'SUMMARY_RESULT', ...response})`. */
  datatype TabMessage = SummaryResult(tabId: int, response: SummaryResponse)

  /** One summary run: the envelope, and the HTTP request sent to the provider, if any. */
  datatype Run = Run(response: SummaryResponse, sent: Option<HttpRequest>)

  /** Everything a request or click handler does besides returning: the provider request and
      the message posted to a tab. */
  datatype Effects = Effects(response: SummaryResponse, sent: Option<HttpRequest>, toTab: Option<TabMessage>)

  /** `{ok: true, summary}` for a returned summary; `{ok: false, error: message}` for a thrown error. */
  function Envelope(r: Result<string>): (e: SummaryResponse)
    ensures WellFormed(e)
    ensures e.ok <==> r.Ok?
    ensures r.Ok? ==> e.summary == Some(r.value)
    ensures r.Err? ==> e.error == Some(r.message)
  {
    match r
    case Ok(s) => Succeeded(s)
    case Err(m) => Failed(m)
  }

  /** `runSummary(request, storage)`: builds the prompt, calls the provider named in the
      settings (the reply to its request is `reply`) and never throws. */
  function RunSummary(request: SummaryRequest, settings: Settings, reply: Reply): (r: Run)
    requires HasApiKey(settings)
    ensures WellFormed(r.response)
    ensures r.response.ok ==> r.response.summary.value != ""
    ensures settings.provider == Some("openai") ==>
      && r.sent == Some(OpenAIRequest(settings.apiKey.value, settings.model,
                          GeneratePrompt(request.mode, request.text, request.title, request.url), settings.temperature))
      && r.response == Envelope(OpenAIResult(reply))
    ensures settings.provider == Some("gemini") ==>
      && r.sent == Some(GeminiRequest(settings.apiKey.value, settings.model,
                          GeneratePrompt(request.mode, request.text, request.title, request.url), settings.temperature))
      && r.response == Envelope(GeminiResult(reply))
    ensures settings.provider != Some("openai") && settings.provider != Some("gemini") ==>
      r == Run(Failed(InvalidProvider), None)
  {
    var prompt := GeneratePrompt(request.mode, request.text, request.title, request.url);
    var key := settings.apiKey.value;
    if settings.provider == Some("openai") then
      Run(Envelope(OpenAIResult(reply)), Some(OpenAIRequest(key, settings.model, prompt, settings.temperature)))
    else if settings.provider == Some("gemini") then
      Run(Envelope(GeminiResult(reply)), Some(GeminiRequest(key, settings.model, prompt, settings.temperature)))
    else
      Run(Failed(InvalidProvider), None)
  }

  /** A non-ok HTTP reply from either provider ends in a failed envelope whose error names the
      provider and carries the HTTP status, which can be read back from it. */
  lemma {:induction false} RunSummaryReportsHttpStatus(request: SummaryRequest, settings: Settings, reply: Reply)
    requires HasApiKey(settings)
    requires settings.provider == Some("openai") || settings.provider == Some("gemini")
    requires reply.Received? && !reply.response.ok
    ensures var r := RunSummary(request, settings, reply).response;
      && !r.ok
      && ErrorStatus(if settings.provider == Some("openai") then "OpenAI" else "Gemini", r.error.value)
         == Some(reply.response.status)
  {
    if settings.provider == Some("openai") {
      assert OpenAIResult(reply).Err?;
    } else {
      assert GeminiResult(reply).Err?;
    }
  }

  /** A successful reply reaches the caller unchanged as the summary. */
  lemma RunSummaryPassesSummaryThrough(request: SummaryRequest, settings: Settings, status: nat, body: string, text: string)
    requires HasApiKey(settings)
    requires settings.provider == Some("openai") || settings.provider == Some("gemini")
    requires text != ""
    ensures RunSummary(request, settings, Received(HttpResponse(status, true, body, Field(Some(text))))).response
            == SummaryResponse(true, Some(text), None)
  {
  }

  /** JavaScript truthiness of an optional tab id (`0` is falsy). */
  predicate HasTabId(id: Option<int>) {
    id.Some? && id.value != 0
  }

  /** `handleSummaryRequest(request, tabId)`: refuses without an API key, otherwise runs the
      summary, posts the result to the requesting tab when there is one, and returns it. */
  function HandleSummaryRequest(request: SummaryRequest, tabId: Option<int>, settings: Settings, reply: Reply): (e: Effects)
    ensures WellFormed(e.response)
    ensures !HasApiKey(settings) ==> e == Effects(Failed(ApiKeyMissing), None, None)
    ensures HasApiKey(settings) ==>
      && e.response == RunSummary(request, settings, reply).response
      && e.sent == RunSummary(request, settings, reply).sent
    ensures e.toTab.Some? <==> HasApiKey(settings) && HasTabId(tabId)
    ensures e.toTab.Some? ==> e.toTab.value == SummaryResult(tabId.value, e.response)
  {
    if !HasApiKey(settings) then Effects(Failed(ApiKeyMissing), None, None)
    else
      var run := RunSummary(request, settings, reply);
      Effects(run.response, run.sent, if HasTabId(tabId) then Some(SummaryResult(tabId.value, run.response)) else None)
  }

  /** A context-menu click (`chrome.contextMenus.onClicked`): summarizes the selection and posts
      the result to the tab, or does nothing at all. */
  function ContextMenuClick(menuItemId: string, tab: Option<Tab>, selectionText: Option<string>,
                            settings: Settings, reply: Reply): (e: Option<Effects>)
    ensures e.Some? <==>
      && menuItemId == MenuItemId && tab.Some? && HasTabId(tab.value.id)
      && UsableSelection(selectionText).Some? && HasApiKey(settings)
    ensures e.Some? ==>
      var run := RunSummary(SummaryRequest(Selection, Trim(selectionText.value), tab.value.title, tab.value.url), settings, reply);
      e.value == Effects(run.response, run.sent, Some(SummaryResult(tab.value.id.value, run.response)))
  {
    if menuItemId == MenuItemId && tab.Some? && HasTabId(tab.value.id) then
      match UsableSelection(selectionText)
      case None => None
      case Some(selection) =>
        if !HasApiKey(settings) then None
        else
          var run := RunSummary(SummaryRequest(Selection, selection, tab.value.title, tab.value.url), settings, reply);
          Some(Effects(run.response, run.sent, Some(SummaryResult(tab.value.id.value, run.response))))
    else None
  }
}
