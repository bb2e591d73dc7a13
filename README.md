# SummarizeIT, modelled in Dafny

SummarizeIT is a browser extension that summarizes a web page, or the text selected in it,
with a hosted language model (OpenAI or Gemini). It has three parts:

- **The content script** is injected into every page. It extracts the readable text of the
  page: Mozilla Readability first, then a fallback chain of the largest `<article>`, the main
  content selectors, the cluster of long paragraphs and the body text. It answers the popup's
  queries for the page text and the selection. After 30 quiet seconds on a page of 1500
  words or more, it offers a one-time "Summarize this page?" toast. It shows answers in a
  modal.
- **The background coordinator** answers `RUN_SUMMARY` messages and context-menu clicks. It
  reads the stored settings, builds the prompt, calls the configured provider and folds the
  outcome into an `{ok, summary?, error?}` envelope. When a key is stored and the
  requesting tab has a truthy id, it posts that envelope to that tab; with no stored key it
  posts nothing.
- **The popup** has a status line, an output section with the summary rendered by a small
  Markdown renderer, an error section and the action buttons.

## How the model is built

Each source file keeps its own form:

- **Functions and lemmas.** The pure parts become functions with lemmas about them: prompt
  construction, the two providers, the coordinator's handlers, readable-text extraction and
  the Markdown renderer.
- **Classes.** The two objects that change state in place become classes. Each method states
  what it changes and which fields it leaves unchanged. These are the content script (`Content.ContentScript`) and the popup
  (`PopupUi.Popup`).
- **Inputs and outputs.** Browser APIs are replaced by values:
  - Inputs: the stored settings, the active tab, the HTTP reply of a provider, what
    Readability returns, what the page's elements contain, and the answers a message gets.
  - Outputs: the HTTP request a provider sends, the message posted to a tab, the requests
    the content script and the popup send, and the modals and sections they show.

JavaScript's semantics are written out where they matter:

- truthiness for `||`;
- `trim()` and `\s` over the full ECMAScript whitespace and line-terminator set;
- `split(/\s+/)`;
- regular-expression `.`, `^` with the `m` flag, lazy and greedy groups, and a replacement
  with the `s` flag but without the `g` flag.

| module | file | models |
|---|---|---|
| `Wrappers` | wrappers.dfy | `Option` and `Result` |
| `Text` | text.dfy | JavaScript string operations: truthiness, `trim`, `split(/\s+/)`, `join`, decimal numbers |
| `Messages` | messages.dfy | the message envelopes, the selection rule, and how an answer is presented |
| `Prompts` | prompts.dfy | ext/background/prompts.ts |
| `Providers` | providers.dfy | ext/background/providers/openai.ts, ext/background/providers/gemini.ts |
| `Background` | background.dfy | ext/background/index.ts |
| `Readability` | readability.dfy | ext/content/readability.ts |
| `Content` | content_script.dfy | ext/content/index.ts |
| `Markdown` | markdown.dfy | `renderMarkdown` of ext/popup/popup.ts |
| `PopupUi` | popup.dfy | the rest of ext/popup/popup.ts |

## Model

| member | source | states |
|---|---|---|
| `Prompts.PromptFrame` | ext/background/prompts.ts:1-23 | `generatePrompt` (`Prompts.GeneratePrompt`) always opens with the fixed summarizer instruction and closes with "Keep the summary concise but comprehensive." |
| `Prompts.PromptTextRoundTrip` | ext/background/prompts.ts:7-22 | The summarized text can be read back out of the prompt unchanged, so it reaches the model verbatim |
| `Prompts.PromptEmbedsContext` | ext/background/prompts.ts:7-9 | Page mode embeds `Title: <title or Unknown>\nURL: <url or Unknown>\n\nContent:\n<text>`; selection mode embeds `Selected Text:\n<text>`; both contain the text |
| `Prompts.PromptNamesSubject` | ext/background/prompts.ts:13 | The prompt asks for a summary of the "web page" in page mode and of the "selected text" in selection mode |
| `Prompts.SelectionIgnoresPageMetadata` | ext/background/prompts.ts:7-9 | In selection mode the title and URL do not affect the prompt |
| `Prompts.MissingMetadataIsUnknown` | ext/background/prompts.ts:8 | A missing or empty title gives the same prompt as the literal title `Unknown`, and likewise for the URL, each independently of the other |
| `Providers.Temperature` | ext/background/providers/openai.ts:33 | `temperature \|\| 0.3`: a stored non-zero temperature is used; a missing or zero one becomes 0.3 |
| `Providers.ErrorStatusRoundTrip` | ext/background/providers/openai.ts:38-41 | The text `Providers.ApiErrorMessage` builds for the thrown error keeps its status: the status code can be parsed back out of the text of the thrown "<vendor> API error: <status> - <body>" |
| `Providers.Decode` | ext/background/providers/openai.ts:38-44 | Outcome of a provider call: a rejected fetch rethrows its error; a non-ok response throws "<vendor> API error: <status> - <body>"; a parse error is rethrown; otherwise the extracted text is returned, or "No response generated" when it is absent or empty. A success is never empty |
| `Providers.OpenAIResult` | ext/background/providers/openai.ts:38-44 | A non-ok OpenAI reply becomes an error from which the HTTP status can be read back |
| `Providers.GeminiResult` | ext/background/providers/gemini.ts:42-48 | A non-ok Gemini reply becomes an error from which the HTTP status can be read back |
| `Providers.ProvidersSendSameInput` | ext/background/providers/gemini.ts:22-38 | The requests built by `Providers.OpenAIRequest` and `Providers.GeminiRequest` both give the model the fixed instruction and then the prompt, with temperature `temperature \|\| 0.3` and 1000 output tokens; OpenAI sends the instruction as the `system` message and the prompt as the `user` message |
| `Providers.ProvidersTargetModel` | ext/background/providers/openai.ts:22 | OpenAI names the configured model (default `gpt-4o-mini`) in the body, whatever the name. Gemini names it (default `gemini-1.5-flash`) in the URL path that `Providers.GeminiUrl` builds; a name without `:` can be read back from there |
| `Providers.GeminiUrlNamesModel` | ext/background/providers/gemini.ts:17 | The Gemini URL starts with the models endpoint, and the path segment before `:generateContent` is exactly the model name |
| `Providers.ProvidersCarryKey` | ext/background/providers/openai.ts:17-20 | OpenAI sends the key as `Authorization: Bearer <key>`; Gemini sends it as the trailing `?key=` query parameter and sends only the JSON content-type header |
| `Messages.UsableSelection` | ext/background/index.ts:37-40 | A selection is usable exactly when it is present and its trimmed text has at least 50 characters; the result is that trimmed text |
| `Messages.Present` | ext/popup/popup.ts:141-148 | An answer is shown as the summary exactly when it is ok and its summary is non-empty; otherwise as its error, or "Failed to generate summary" when the error is missing or empty. The message shown is never empty |
| `Messages.PresentWellFormed` | ext/background/index.ts:113-119 | A well-formed success with a non-empty summary shows exactly that summary; a well-formed failure with a non-empty error shows exactly that error |
| `Background.Envelope` | ext/background/index.ts:113-119 | A returned summary becomes `{ok: true, summary}`; a thrown error becomes `{ok: false, error}`; the envelope is well-formed either way |
| `Background.RunSummary` | ext/background/index.ts:98-121 | `openai` and `gemini` each send their provider's request for the generated prompt and wrap its outcome; any other provider gives `{ok: false, error: "Invalid provider"}` without a request. The envelope is well-formed, and a successful summary is never empty |
| `Background.RunSummaryReportsHttpStatus` | ext/background/index.ts:114-120 | A non-ok HTTP reply from either provider ends in a failed envelope from whose error the HTTP status can be read back |
| `Background.RunSummaryPassesSummaryThrough` | ext/background/index.ts:105-113 | A successful reply with non-empty text reaches the caller as exactly `{ok: true, summary: text}` |
| `Background.HandleSummaryRequest` | ext/background/index.ts:70-96 | Without an API key the answer is the "API key not configured" failure, and nothing is sent or posted. Otherwise the answer is `runSummary`'s. The envelope is posted as `SUMMARY_RESULT` to the requesting tab exactly when a key exists and the tab id is truthy |
| `Background.ContextMenuClick` | ext/background/index.ts:35-60 | A click has an effect exactly when the menu item is `summarize-selection`, the tab has a truthy id, the trimmed selection has at least 50 characters and a key is stored. The effect is a selection-mode run with the tab's title and URL, whose envelope is posted to that tab |
| `Readability.LargestArticle` | ext/content/readability.ts:26-30 | The `reduce` picks an article whose trimmed text is longest, and the first such one |
| `Readability.FirstMax` | ext/content/readability.ts:26-30 | The whole `reduce` over the lengths: the first index holding the largest length |
| `Readability.FirstMaxFrom` | ext/content/readability.ts:26-30 | One step of that `reduce`: a later article replaces the current one only when its trimmed text is strictly longer |
| `Readability.ArticleText` | ext/content/readability.ts:24-36 | Succeeds with the trimmed text of the first longest article, which is longer than 200 characters. Fails exactly when no article's trimmed text is longer than 200 characters |
| `Readability.SelectorText` | ext/content/readability.ts:39-58 | Returns the trimmed text of the first selector, in order, whose first match is longer than 200 characters. Fails exactly when no selector qualifies |
| `Readability.LongParagraphs` | ext/content/readability.ts:61-66 | Every kept paragraph is trimmed and longer than 50 characters, and no more are kept than there are paragraphs |
| `Readability.LongParagraphsAppend` | ext/content/readability.ts:61-66 | The filter keeps document order: filtering a concatenation filters each part |
| `Readability.LongParagraphsMembers` | ext/content/readability.ts:61-66 | A text is kept exactly when it is the trimmed text of some paragraph and longer than 50 characters |
| `Readability.ParagraphText` | ext/content/readability.ts:61-71 | Returns the kept paragraphs joined by blank lines when the joined text is longer than 200 characters, and nothing otherwise |
| `Readability.FallbackText` | ext/content/readability.ts:22-80 | Tries the largest article, then the selectors, then the paragraph cluster, then the body text, in that order. The first candidate longer than 200 characters wins; a result always passes that threshold |
| `Readability.ExtractReadableText` | ext/content/readability.ts:3-20 | Readability's trimmed text when it is longer than 200 characters; otherwise, and also when Readability throws, the fallback chain |
| `Readability.NullOnlyWhenEveryCandidateFails` | ext/content/readability.ts:3-80 | Extraction returns null exactly when Readability, every article, every selector, the paragraph cluster and the body text all fail the threshold |
| `Readability.JoinTrimmed` | ext/content/readability.ts:63-66 | Joining non-empty trimmed pieces gives a trimmed text |
| `Readability.FallbackTextIsTrimmed` | ext/content/readability.ts:22-80 | Every text the fallback chain returns is trimmed |
| `Readability.ExtractedTextIsTrimmed` | ext/content/readability.ts:3-20 | Every text extraction returns is trimmed |
| `Content.WordCount` | ext/content/index.ts:81 | `split(/\s+/).length` is at least 1, even for an empty text; `Content.WordsAreNonEmpty` and `Content.WordsFit` say what the pieces are and bound their number |
| `Content.WordsAreNonEmpty` | ext/content/index.ts:81 | Splitting a non-empty trimmed text yields no empty word, and no more words than characters |
| `Content.WordsFit` | ext/content/index.ts:81 | A non-empty trimmed text splits into no more words than it has characters |
| `Text.Trim` | ext/content/readability.ts:10 | `trim()` yields a text with no whitespace at either end, no longer than its input |
| `Text.TrimDropsOnlyWhitespace` | ext/content/readability.ts:10 | `trim()` drops only whitespace, and only from the two ends; an empty result means the input was all whitespace |
| `Text.TrimIdempotent` | ext/content/readability.ts:10 | Trimming twice is trimming once |
| `Text.SplitWhitespace` | ext/content/index.ts:81 | `split(/\s+/)` always yields at least one piece |
| `Text.SplitPiecesHaveNoWhitespace` | ext/content/index.ts:81 | No piece of `split(/\s+/)` contains whitespace |
| `Text.SplitKeepsAllNonWhitespace` | ext/content/index.ts:81 | The pieces of `split(/\s+/)` hold exactly the input's non-whitespace characters, in order |
| `Text.SplitTrimmedHasNoEmptyPiece` | ext/content/index.ts:81 | A non-empty trimmed text splits into non-empty pieces only |
| `Text.ParseNatToString` | ext/background/providers/openai.ts:40 | The decimal rendering of the status in the error text reads back as the same number |
| `Content.LongPageNeedsAcceptedText` | ext/content/index.ts:75-85 | The nudge condition (`Content.LongPage`) needs extracted text that is present, longer than 200 characters and at least 1500 characters long |
| `Content.GetSelection` | ext/content/index.ts:138-147 | The selection is the trimmed text, returned exactly when it has at least 50 characters; otherwise `null` |
| `Content.ContentScript.constructor` | ext/content/index.ts:19-62 | A new content script has one idle timeout pending, no toast, and no modal or request |
| `Content.ContentScript.ResetIdleTimer` | ext/content/index.ts:64-73 | The previous timeout is cleared and a fresh one scheduled, so exactly one is pending; activity time is updated and nothing else changes |
| `Content.ContentScript.TimerFired` | ext/content/index.ts:70-72 | The timeout that fires leaves the queue, then the idle check runs |
| `Content.ContentScript.CheckIdleNudge` | ext/content/index.ts:75-85 | Once a toast has been shown, nothing changes. Otherwise the toast is shown exactly when the extracted text is present and has at least 1500 words |
| `Content.ContentScript.ShowIdleToast` | ext/content/index.ts:87-115 | With a toast on screen, nothing changes. Otherwise a toast is created and recorded as shown |
| `Content.ContentScript.HideToast` | ext/content/index.ts:117-122 | The toast is removed but stays recorded as shown, so it is never offered again on this page |
| `Content.ContentScript.SummarizePage` | ext/content/index.ts:124-132 | Without readable text, an error modal "No readable content found on this page." is shown and nothing is sent. Otherwise a page request with that text, the page title and the URL is sent |
| `Content.ContentScript.SummarizeFromToast` | ext/content/index.ts:105-108 | The Summarize button's own listener summarizes the page, then removes the toast; that listener alone leaves timers, activity time and the shown flag unchanged |
| `Content.ContentScript.ToastSummarizeClick` | ext/content/index.ts:52-57 | The whole click on the toast's Summarize button: the page is summarized and the toast removed, then the click bubbles to the document, whose activity listener records the time and replaces the pending timeout by a fresh one |
| `Content.ContentScript.ToastDismissClick` | ext/content/index.ts:110-112 | The whole click on the toast's Dismiss button: the toast is removed with the shown flag kept, then the bubbled click records the time and replaces the pending timeout by a fresh one; nothing is sent and no modal is shown |
| `Content.ContentScript.KeyDown` | ext/content/index.ts:43-48 | The shortcut listener alone: Ctrl+Shift+U or Cmd+Shift+U summarizes the page. With readable text, the page request is appended to what was sent; without, the no-content error modal is appended. Timers, activity time and toast state stay unchanged. Every other key leaves the state unchanged |
| `Content.ContentScript.KeyPress` | ext/content/index.ts:40-57 | The whole `keydown` event: the activity listener, registered first, records the time and replaces the pending timeout by a fresh one; then the shortcut summarizes the page as `KeyDown` does, and any other key sends and shows nothing. Toast state stays unchanged |
| `Content.ContentScript.SendSummaryRequest` | ext/content/index.ts:149-157 | Exactly one `RUN_SUMMARY` request with the given mode and text, the title and the URL is appended to what was sent |
| `Content.ContentScript.HandleSummaryResult` | ext/content/index.ts:159-165 | Exactly one modal is appended, namely how the answer is presented |
| `Content.ContentScript.ShowSummary` | ext/content/index.ts:167-207 | A summary modal is appended |
| `Content.ContentScript.ShowError` | ext/content/index.ts:209-236 | An error modal is appended |
| `Content.ContentScript.OnMessage` | ext/content/index.ts:25-37 | A `SUMMARY_RESULT` is presented with no reply, and only the modals change. `GET_SELECTION` is answered with the selection, and `GET_PAGE_TEXT` with the extracted text, both leaving the state unchanged. Any other message is ignored |
| `Content.AtMostOnePendingTimer` | ext/content/index.ts:64-73 | At most one idle timeout is ever pending |
| `Markdown.FindClose` | ext/popup/popup.ts:163 | The lazy group `(.*?)` ends at an index from which the whole delimiter still fits in the text |
| `Markdown.FindCloseLeftmost` | ext/popup/popup.ts:163 | The lazy group ends at the first later occurrence of the delimiter with no line terminator before it; when there is none, no such occurrence exists |
| `Markdown.ReplaceDelimitedWhole` | ext/popup/popup.ts:163-169 | A text `d x d` with no line terminator and no first delimiter character inside `x` is one complete match and becomes the element around `x` |
| `Markdown.BulletLine` | ext/popup/popup.ts:173 | A bullet line `- x` at the start of a line becomes `<li>x</li>` |
| `Markdown.BulletLinesOfList` | ext/popup/popup.ts:173 | Run while the line feeds are still there, the bullet rule turns every line of a list into its own item |
| `Markdown.LineLength` | ext/popup/popup.ts:173 | The `.*` of the bullet rule stops at the first line terminator or at the end of the text |
| `Markdown.ReplaceDelimitedIdentity` | ext/popup/popup.ts:163-169 | One delimiter rule (`Markdown.ReplaceDelimited`) leaves a text that lacks the delimiter's first character unchanged |
| `Markdown.EmphasisIdentity` | ext/popup/popup.ts:163-169 | The five emphasis rules together (`Markdown.Emphasis`) leave a text without `*`, `_` and a backtick unchanged |
| `Markdown.BulletLinesIdentity` | ext/popup/popup.ts:173 | The bullet rule (`Markdown.BulletLines`) leaves a single line that does not start with `-` or `*` unchanged |
| `Markdown.BulletLinesKeepNoNewline` | ext/popup/popup.ts:173 | The bullet rule adds no line feed to a text that has none |
| `Markdown.BreakLinesIdentity` | ext/popup/popup.ts:171 | Text with no line feed passes the line-break rule unchanged |
| `Markdown.BreakLines` | ext/popup/popup.ts:171 | No line feed remains after `.replace(/\n/g, '<br>')` |
| `Markdown.WrappedAddsOnlyTags` | ext/popup/popup.ts:175 | The `<ul>…</ul>` splice adds only the characters of the two tags: a character in neither the text nor the tags is not in the result |
| `Markdown.WrapList` | ext/popup/popup.ts:175 | The list wrap leaves the text unchanged or adds exactly the 9 characters of `<ul></ul>` |
| `Markdown.WrapListShape` | ext/popup/popup.ts:175 | Without both an `<li>` and a `</li>` the text is unchanged. Otherwise one `<ul>…</ul>` encloses everything from the first `<li>` to the end of the last `</li>` |
| `Markdown.RenderMarkdown` | ext/popup/popup.ts:160-176 | The rendered HTML holds no line feed |
| `Markdown.RenderMarkdownCorrected` | ext/popup/popup.ts:160-176 | The renderer as evidently intended (bullets before line breaks), used only for the finding below; its HTML holds no line feed either |
| `Markdown.PlainTextUnchanged` | ext/popup/popup.ts:160-176 | Text with no emphasis delimiter, no line terminator, no leading `-` and no literal `<li>` is rendered unchanged |
| `Markdown.BoldRendersStrong` | ext/popup/popup.ts:163-167 | Bold runs before italic, so for x with no line terminator, `*`, `_`, backtick or `<`, `**x**` renders as `<strong>x</strong>`, not as nested `<em>` |
| `Markdown.ListAsWritten` | ext/popup/popup.ts:171-175 | As written, a list of bullet lines `- x1`…`- xn` renders as one item: `<ul><li>x1<br>- x2…<br>- xn</li></ul>` |
| `Markdown.ListCorrected` | ext/popup/popup.ts:171-175 | Corrected, each bullet line `- x` becomes `<li>x</li>`. The items are separated by `<br>` and wrapped in one `<ul>` |
| `PopupUi.ReadyStatus` | ext/popup/popup.ts:54 | The status reads `Ready to summarize (<provider>)` and names the stored provider, or `openai` when none is stored |
| `PopupUi.ReadyStatusNamesProvider` | ext/popup/popup.ts:54 | A stored provider is named in the status; an unset or empty one reads exactly as `openai` |
| `PopupUi.TextToSummarize` | ext/popup/popup.ts:72-84 | Returns the text exactly when the tab id is truthy, the content script answered, and its text is non-empty. Otherwise it fails with "No active tab found", the messaging error, or the mode's no-text message, in that order |
| `PopupUi.Popup.constructor` | ext/popup/popup.ts:15-23 | The popup starts with both sections hidden and empty, an empty status, the buttons enabled and nothing sent |
| `PopupUi.Popup.UpdateStatus` | ext/popup/popup.ts:150-152 | Only the status text changes |
| `PopupUi.Popup.ShowOutput` | ext/popup/popup.ts:154-158 | The summary rendered by `renderMarkdown` as written is shown and the error section hidden; the output holds no line feed |
| `PopupUi.Popup.ShowError` | ext/popup/popup.ts:178-183 | The message is shown, the output section hidden, and the status set to "Error occurred" |
| `PopupUi.Popup.HideOutput` | ext/popup/popup.ts:185-187 | The output section is hidden; nothing else changes |
| `PopupUi.Popup.HideError` | ext/popup/popup.ts:189-191 | The error section is hidden; nothing else changes |
| `PopupUi.Popup.DisableButtons` | ext/popup/popup.ts:58-63 | The action buttons are disabled; nothing else changes |
| `PopupUi.Popup.HandleResponse` | ext/popup/popup.ts:141-148 | The popup shows what the answer presents: the summary with "Summary generated successfully", or the error with "Error occurred". Exactly one section is visible |
| `PopupUi.Popup.CheckConfiguration` | ext/popup/popup.ts:47-56 | Without a key, the configure-your-key error is shown and the buttons are disabled. With one, only the status changes, and it names the provider |
| `PopupUi.Popup.Summarize` | ext/popup/popup.ts:65-101 | If any check fails, that error is shown and nothing is sent. Otherwise exactly one request with the text and the tab's title and URL is sent, and its answer or messaging error is shown. At most one section is visible. The output's HTML is kept whenever an error is shown, and the error's text whenever a summary is shown |
| `PopupUi.Popup.SummarizePage` | ext/popup/popup.ts:65-101 | The Summarize Page button runs those steps in page mode with "No readable content found on this page.": a failed check is shown and nothing is sent; otherwise one page request is sent and the answer, or the messaging error, is shown; the buttons' state is unchanged; the output's HTML is kept whenever an error is shown, and the error's text whenever a summary is shown |
| `PopupUi.Popup.SummarizeSelection` | ext/popup/popup.ts:103-139 | The Summarize Selection button runs those steps in selection mode with "No text selected. Please select at least 50 characters.": a failed check is shown and nothing is sent; otherwise one selection request is sent and the answer, or the messaging error, is shown; the buttons' state is unchanged; the output's HTML is kept whenever an error is shown, and the error's text whenever a summary is shown |

## Left out

- Browser APIs (`chrome.storage`, `chrome.tabs`, `chrome.runtime`, `chrome.contextMenus`) are not modelled as calls. What they return is an input, and what is sent through them is an output value.
- `fetch` and JSON parsing are not modelled: the HTTP reply, with the string its optional chain yields or the parse error, is an input.
- Mozilla Readability's own algorithm is not modelled: its outcome (throws, returns nothing, or returns a text) is an input.
- `document.querySelectorAll` and `textContent` are not modelled: the page is the texts of its articles, the first match of each selector, its paragraphs and its body.
- DOM markup is not modelled: the toast's HTML, the modal's HTML and styles, the modal close and copy buttons, `copyToClipboard` and the options button. Modals are recorded as what they display.
- Clocks and timers are not modelled in real time. `Date.now()` is a parameter; the 30-second delay is not; a timeout fires when `TimerFired` is called with its id.
- Asynchronous interleaving is left out: each handler runs to completion as one step.
- The `ctrlKey`/`metaKey`/`shiftKey` event object and `preventDefault` become plain arguments.
- ext/options/options.ts is not part of this model. Its Test Connection button (ext/options/options.ts:82-103) checks the form's key and sends the form's provider, model and temperature, but `handleSummaryRequest` ignores those fields and reads the saved settings (ext/background/index.ts:72-76), so unsaved settings are not what gets tested.
- `Content.ContentScript.KeyDown` and `Content.ContentScript.SummarizeFromToast` model one listener each. The same event also runs the document's activity listener (`ResetIdleTimer`); `Content.ContentScript.KeyPress` and `Content.ContentScript.ToastSummarizeClick` model the whole event. A click on the toast's Dismiss button runs `HideToast` and then `ResetIdleTimer`, which `Content.ContentScript.ToastDismissClick` models. Scroll, mouse-move and other clicks run only `ResetIdleTimer`.
- Lengths are counted in characters, not UTF-16 code units.
- Console logging is left out.
- `innerHTML` is assigned the rendered Markdown without escaping; the model does not track HTML injection.
- The `error instanceof Error` fallbacks ('Unknown error occurred', '<provider> API error', 'Failed to summarize page', 'Failed to summarize selection') are left out. Every error thrown on those paths is an `Error`.
- The popup's handling of an undefined coordinator answer, or of an empty tab list, is left out. Both would fail with a TypeError whose text is the engine's; the model receives either an envelope or a messaging error.
- `Background.RunSummary`: requires a stored API key, because both of its callers check for one first.
- `Providers.Temperature`: a stored `NaN` temperature is written as `None`.
- `PopupUi.Popup.constructor`: assumes the output and error sections start hidden and the status starts empty, because popup.html is not part of this model.
- `Content.ContentScript.TimerFired`: leaves `timer` pointing at the fired id, as the source does; that id is no longer pending.
- `Content.LongPageNeedsAcceptedText`: bounds the text's character length, not its word count, from below by 1500.
- The outer `catch` of `handleSummaryRequest` (ext/background/index.ts:89-95) is left out: reading the settings from `chrome.storage.sync` is an input and cannot reject, so the `{ok: false, error}` answer for a rejected read is not modelled.
- The `TypeError` that `document.body.textContent` throws on a page without a body is left out: a page always has a body text, possibly empty.
- The popup shows `openai` when no provider is stored, while the coordinator answers "Invalid provider"; both behaviours are modelled as they are.

## Findings

| source | as written | input that shows it | evidently intended | confidence | as-written member | corrected member |
|---|---|---|---|---|---|---|
| ext/popup/popup.ts:171-173 | Line feeds become `<br>` before the `^[-*]\s+(.*)$` bullet rule runs, so `^` with the `m` flag holds only at the start of the text. Only the first bullet becomes an `<li>`, and that item swallows the rest of the list | `- a\n- b` renders as `<ul><li>a<br>- b</li></ul>` | every bullet line becomes its own `<li>` | not executed | `Markdown.ListAsWritten` | `Markdown.ListCorrected` |
