/** The two language-model providers (`openaiProvider`, `geminiProvider`): how each builds its
    HTTP request and how it turns the HTTP reply into the summary or a thrown error.
    The transport itself is not modelled: the reply is an input. */
module Providers {
  import opened Wrappers
  import opened Text
  import Prompts

  datatype Header = Header(name: string, value: string)

  datatype Role = System | User

  datatype ChatMessage = ChatMessage(role: Role, content: string)

  datatype Part = Part(text: string)

  /** The JSON body of a request, before serialisation. */
  datatype Body =
    | ChatCompletion(model: string, messages: seq<ChatMessage>, temperature: real, maxTokens: nat)
    | GenerateContent(contents: seq<seq<Part>>, temperature: real, maxOutputTokens: nat)

  datatype HttpRequest = HttpRequest(url: string, verb: string, headers: seq<Header>, body: Body)

  /** What `await response.json()` followed by the provider's optional chain yields: the
      extracted string (`None` when some link of the chain is absent), or the message of the
      error raised while parsing or following the chain. */
  datatype Payload = Field(value: Option<string>) | Unreadable(message: string)

  datatype HttpResponse = HttpResponse(status: nat, ok: bool, body: string, payload: Payload)

  /** The settled `fetch`: a response, or a rejection with an error message. */
  datatype Reply = NetworkError(message: string) | Received(response: HttpResponse)

  const DefaultTemperature: real := 0.3
  const TokenLimit: nat := 1000
  const NoResponse: string := "No response generated"
  const JsonHeader: Header := Header("Content-Type", "application/json")

  const OpenAIEndpoint: string := "https://api.openai.com/v1/chat/completions"
  const OpenAIDefaultModel: string := "gpt-4o-mini"
  const GeminiEndpoint: string := "https://generativelanguage.googleapis.com/v1beta/models/"
  const GeminiDefaultModel: string := "gemini-1.5-flash"

  /** `temperature || 0.3`; `None` stands for a stored value that is `undefined` or `NaN`. */
  function Temperature(t: Option<real>): (r: real)
    ensures t.Some? && t.value != 0.0 ==> r == t.value
    ensures t.None? || t.value == 0.0 ==> r == DefaultTemperature
  {
    if t.Some? && t.value != 0.0 then t.value else DefaultTemperature
  }

  /** The text of the error thrown for a non-ok response. */
  function ApiErrorMessage(vendor: string, status: nat, body: string): string {
    vendor + " API error: " + NatToString(status) + " - " + body
  }

  /** Number of decimal digits at the front of `s`. */
  function LeadingDigits(s: string): (n: nat)
    ensures n <= |s|
  {
    if s != [] && '0' <= s[0] <= '9' then 1 + LeadingDigits(s[1..]) else 0
  }

  /** Reads the HTTP status back out of an error message of `vendor`. */
  function ErrorStatus(vendor: string, message: string): Option<nat> {
    var prefix := vendor + " API error: ";
    if StartsWith(message, prefix) then
      var rest := message[|prefix|..];
      var n := LeadingDigits(rest);
      if n > 0 then Some(ParseNat(rest[..n])) else None
    else None
  }

  lemma {:induction false} LeadingDigitsOfNumber(digits: string, rest: string)
    requires forall i :: 0 <= i < |digits| ==> '0' <= digits[i] <= '9'
    requires rest != [] && !('0' <= rest[0] <= '9')
    ensures LeadingDigits(digits + rest) == |digits|
  {
    if digits != [] {
      assert (digits + rest)[1..] == digits[1..] + rest;
      LeadingDigitsOfNumber(digits[1..], rest);
    }
  }

  /** The error message of a failed HTTP call carries the status code: it can be read back. */
  lemma ErrorStatusRoundTrip(vendor: string, status: nat, body: string)
    ensures ErrorStatus(vendor, ApiErrorMessage(vendor, status, body)) == Some(status)
  {
    var prefix := vendor + " API error: ";
    var digits := NatToString(status);
    var message := ApiErrorMessage(vendor, status, body);
    assert message == prefix + (digits + (" - " + body));
    ConcatStartsWith(prefix, digits + (" - " + body));
    assert message[|prefix|..] == digits + (" - " + body);
    LeadingDigitsOfNumber(digits, " - " + body);
    assert message[|prefix|..][..|digits|] == digits;
    ParseNatToString(status);
  }

  /** What a provider returns once the request has been answered: the text found in the
      payload, or "No response generated" when it is absent or empty; the failure cases become
      the message of the error the provider throws. */
  function Decode(vendor: string, reply: Reply): (r: Result<string>)
    ensures r.Ok? ==> r.value != ""
    ensures reply.NetworkError? ==> r == Err(reply.message)
    ensures reply.Received? && !reply.response.ok ==>
      r == Err(ApiErrorMessage(vendor, reply.response.status, reply.response.body))
    ensures reply.Received? && reply.response.ok && reply.response.payload.Unreadable? ==>
      r == Err(reply.response.payload.message)
    ensures reply.Received? && reply.response.ok && reply.response.payload.Field? ==>
      r == Ok(if Truthy(reply.response.payload.value) then reply.response.payload.value.value else NoResponse)
  {
    match reply
    case NetworkError(m) => Err(m)
    case Received(resp) =>
      if !resp.ok then Err(ApiErrorMessage(vendor, resp.status, resp.body))
      else
        match resp.payload
        case Unreadable(m) => Err(m)
        case Field(v) => Ok(OrElse(v, NoResponse))
  }

  /** The request `openaiProvider(apiKey, model, prompt, temperature)` sends. */
  function OpenAIRequest(apiKey: string, model: Option<string>, prompt: string, temperature: Option<real>): HttpRequest {
    HttpRequest(
      OpenAIEndpoint, "POST",
      [JsonHeader, Header("Authorization", "Bearer " + apiKey)],
      ChatCompletion(
        OrElse(model, OpenAIDefaultModel),
        [ChatMessage(System, Prompts.Instruction), ChatMessage(User, prompt)],
        Temperature(temperature), TokenLimit))
  }

  /** The result of `openaiProvider`, given the reply to its request. */
  function OpenAIResult(reply: Reply): (r: Result<string>)
    ensures reply.Received? && !reply.response.ok ==> r.Err? && ErrorStatus("OpenAI", r.message) == Some(reply.response.status)
  {
    if reply.Received? && !reply.response.ok then
      ErrorStatusRoundTrip("OpenAI", reply.response.status, reply.response.body);
      Decode("OpenAI", reply)
    else Decode("OpenAI", reply)
  }

  /** The URL `geminiProvider` posts to: the model in the path, the key as the `key` query parameter. */
  function GeminiUrl(apiKey: string, model: Option<string>): string {
    GeminiEndpoint + OrElse(model, GeminiDefaultModel) + ":generateContent?key=" + apiKey
  }

  /** The request `geminiProvider(apiKey, model, prompt, temperature)` sends. */
  function GeminiRequest(apiKey: string, model: Option<string>, prompt: string, temperature: Option<real>): HttpRequest {
    HttpRequest(
      GeminiUrl(apiKey, model), "POST",
      [JsonHeader],
      GenerateContent([[Part(Prompts.Instruction), Part(prompt)]], Temperature(temperature), TokenLimit))
  }

  /** The result of `geminiProvider`, given the reply to its request. */
  function GeminiResult(reply: Reply): (r: Result<string>)
    ensures reply.Received? && !reply.response.ok ==> r.Err? && ErrorStatus("Gemini", r.message) == Some(reply.response.status)
  {
    if reply.Received? && !reply.response.ok then
      ErrorStatusRoundTrip("Gemini", reply.response.status, reply.response.body);
      Decode("Gemini", reply)
    else Decode("Gemini", reply)
  }

  /** The texts a request hands to the model, in order. */
  function ModelInput(req: HttpRequest): seq<string> {
    match req.body
    case ChatCompletion(_, messages, _, _) => seq(|messages|, i requires 0 <= i < |messages| => messages[i].content)
    case GenerateContent(contents, _, _) => if |contents| == 1 then seq(|contents[0]|, i requires 0 <= i < |contents[0]| => contents[0][i].text) else []
  }

  /** Sampling temperature and output-token limit of a request. */
  function Sampling(req: HttpRequest): (real, nat) {
    match req.body
    case ChatCompletion(_, _, t, n) => (t, n)
    case GenerateContent(_, t, n) => (t, n)
  }

  /** The model name a request targets: a body field for OpenAI, a path segment for Gemini. */
  function ModelName(req: HttpRequest): Option<string> {
    match req.body
    case ChatCompletion(m, _, _, _) => Some(m)
    case GenerateContent(_, _, _) =>
      if StartsWith(req.url, GeminiEndpoint) then
        var rest := req.url[|GeminiEndpoint|..];
        var n := ModelSegment(rest);
        Some(rest[..n])
      else None
  }

  /** Length of the path segment at the front of `s`: up to the first `:`. */
  function ModelSegment(s: string): (n: nat)
    ensures n <= |s|
  {
    if s != [] && s[0] != ':' then 1 + ModelSegment(s[1..]) else 0
  }

  lemma {:induction false} ModelSegmentOf(name: string, rest: string)
    requires forall i :: 0 <= i < |name| ==> name[i] != ':'
    requires rest != [] && rest[0] == ':'
    ensures ModelSegment(name + rest) == |name|
  {
    if name != [] {
      assert (name + rest)[1..] == name[1..] + rest;
      ModelSegmentOf(name[1..], rest);
    }
  }

  /** Both providers hand the model the same two texts (the fixed instruction, then the prompt),
      with the same temperature (`temperature || 0.3`) and the same limit of 1000 output tokens;
      OpenAI sends the instruction as the system message and the prompt as the user message. */
  lemma ProvidersSendSameInput(apiKey: string, model: Option<string>, prompt: string, temperature: Option<real>)
    ensures OpenAIRequest(apiKey, model, prompt, temperature).body.messages
      == [ChatMessage(System, Prompts.Instruction), ChatMessage(User, prompt)]
    ensures ModelInput(OpenAIRequest(apiKey, model, prompt, temperature)) == [Prompts.Instruction, prompt]
    ensures ModelInput(GeminiRequest(apiKey, model, prompt, temperature)) == [Prompts.Instruction, prompt]
    ensures Sampling(OpenAIRequest(apiKey, model, prompt, temperature)) == (Temperature(temperature), 1000)
    ensures Sampling(GeminiRequest(apiKey, model, prompt, temperature)) == (Temperature(temperature), 1000)
  {
  }

  /** Each provider targets the configured model, or its own default when none is configured:
      OpenAI names it in the body, Gemini in the URL path, from which it can be read back. */
  lemma ProvidersTargetModel(apiKey: string, model: Option<string>, prompt: string, temperature: Option<real>)
    ensures ModelName(OpenAIRequest(apiKey, model, prompt, temperature)) == Some(if Truthy(model) then model.value else "gpt-4o-mini")
    ensures (forall i :: 0 <= i < |OrElse(model, GeminiDefaultModel)| ==> OrElse(model, GeminiDefaultModel)[i] != ':') ==>
      ModelName(GeminiRequest(apiKey, model, prompt, temperature)) == Some(if Truthy(model) then model.value else "gemini-1.5-flash")
  {
    var name := OrElse(model, GeminiDefaultModel);
    if forall i :: 0 <= i < |name| ==> name[i] != ':' {
      GeminiUrlNamesModel(apiKey, name);
    }
  }

  /** The model name can be read back from the path of the Gemini URL. */
  lemma GeminiUrlNamesModel(apiKey: string, name: string)
    requires forall i :: 0 <= i < |name| ==> name[i] != ':'
    ensures StartsWith(GeminiEndpoint + name + ":generateContent?key=" + apiKey, GeminiEndpoint)
    ensures var rest := (GeminiEndpoint + name + ":generateContent?key=" + apiKey)[|GeminiEndpoint|..];
      rest[..ModelSegment(rest)] == name
  {
    var rest := ":generateContent?key=" + apiKey;
    var url := GeminiEndpoint + name + ":generateContent?key=" + apiKey;
    assert url == GeminiEndpoint + (name + rest);
    ConcatStartsWith(GeminiEndpoint, name + rest);
    assert url[|GeminiEndpoint|..] == name + rest;
    ModelSegmentOf(name, rest);
    assert (name + rest)[..|name|] == name;
  }

  /** The key reaches each provider unaltered: as a bearer token for OpenAI, as the value of the
      trailing `key` query parameter for Gemini. */
  lemma ProvidersCarryKey(apiKey: string, model: Option<string>, prompt: string, temperature: Option<real>)
    ensures OpenAIRequest(apiKey, model, prompt, temperature).headers[1] == Header("Authorization", "Bearer " + apiKey)
    ensures EndsWith(GeminiRequest(apiKey, model, prompt, temperature).url, "?key=" + apiKey)
    ensures GeminiRequest(apiKey, model, prompt, temperature).headers == [JsonHeader]
  {
    var name := OrElse(model, GeminiDefaultModel);
    assert GeminiUrl(apiKey, model) == GeminiEndpoint + name + ":generateContent" + ("?key=" + apiKey);
    ConcatEndsWith(GeminiEndpoint + name + ":generateContent", "?key=" + apiKey);
  }
}
