/** The content script injected into every page (`ContentScript`): the idle tracker that offers
    a one-time "Summarize this page?" toast after a quiet period on a long page, the selection
    rule, the page-summary request it sends, and the modal in which it shows an answer.
    Browser events become method calls; the extracted page text is computed by the
    `Readability` model from what the page offers; the timer queue of the browser is the set
    of pending timeout ids. */
module Content {
  import opened Wrappers
  import opened Text
  import opened Messages
  import opened Readability

  /** Fewest words a page must have for the idle nudge. */
  const NudgeWordCount: nat := 1500

  const NoReadableContent: string := "No readable content found on this page."

  /** `text.split(/\s+/).length`. */
  function WordCount(text: string): (n: nat)
    ensures n >= 1
  {
    |SplitWhitespace(text)|
  }

  /** The text the nudge looks at, and whether it is long enough to offer a summary. */
  predicate LongPage(reader: ReaderOutcome, page: Page) {
    var text := ExtractReadableText(reader, page);
    Truthy(text) && WordCount(text.value) >= NudgeWordCount
  }

  /** `getSelection`: the trimmed selection, or `None` when it is absent or too short. */
  function GetSelection(raw: Option<string>): (r: Option<string>)
    ensures r.None? <==> raw.None? || |Trim(raw.value)| < MinSelectionLength
    ensures r.Some? ==> r.value == Trim(raw.value) && |r.value| >= MinSelectionLength
  {
    UsableSelection(raw)
  }

  /** A message from the background coordinator or the popup. */
  datatype Incoming =
    | SummaryResult(response: SummaryResponse)
    | GetSelectionRequest(selection: Option<string>)
    | GetPageTextRequest(reader: ReaderOutcome, page: Page)
    | Unknown

  /** The answer given through `sendResponse`: `{ text }`. */
  datatype Reply = TextReply(text: Option<string>)

  class ContentScript {
    /** `idleTracker.timer`: the id of the timeout scheduled last. */
    var timer: Option<nat>
    /** `idleTracker.lastActivity`. */
    var lastActivity: int
    /** Timeout ids scheduled and neither cleared nor fired yet. */
    var pending: set<nat>
    /** The id the next `setTimeout` returns; ids are positive. */
    var nextTimerId: nat
    var hasShownToast: bool
    /** `toastElement !== null`. */
    var toastPresent: bool
    /** The summary and error modals appended to the page, oldest first. */
    var modals: seq<Display>
    /** The `RUN_SUMMARY` messages sent to the background coordinator, oldest first. */
    var sent: seq<SummaryRequest>
    /** How many toasts were ever created on this page. */
    ghost var toastsCreated: nat

    /** At most one timeout is pending and it is the one recorded; a toast on screen has been
        recorded as shown; and a toast is created at most once per page load. */
    ghost predicate Valid()
      reads this
    {
      && (forall id :: id in pending ==> timer == Some(id))
      && nextTimerId > 0
      && (timer.Some? ==> 0 < timer.value < nextTimerId)
      && (toastPresent ==> hasShownToast)
      && toastsCreated <= 1
      && (hasShownToast <==> toastsCreated == 1)
    }

    /** `new ContentScript()`: nothing shown or sent yet, and the first idle timeout scheduled
        (`startIdleTracking`). */
    constructor(now: int)
      ensures Valid()
      ensures timer.Some? && pending == {timer.value}
      ensures lastActivity == now
      ensures !hasShownToast && !toastPresent && modals == [] && sent == []
    {
      timer := None;
      lastActivity := now;
      pending := {};
      nextTimerId := 1;
      hasShownToast := false;
      toastPresent := false;
      modals := [];
      sent := [];
      toastsCreated := 0;
      new;
      ResetIdleTimer(now);
    }

    /** `resetIdleTimer`, run on every scroll, key, mouse move and click: the pending timeout
        is cleared before a new one is scheduled, so exactly one is pending afterwards. */
    method ResetIdleTimer(now: int)
      requires Valid()
      modifies this
      ensures Valid()
      ensures timer == Some(old(nextTimerId)) && pending == {old(nextTimerId)}
      ensures nextTimerId == old(nextTimerId) + 1
      ensures old(timer).Some? ==> old(timer).value !in pending
      ensures lastActivity == now
      ensures hasShownToast == old(hasShownToast) && toastPresent == old(toastPresent)
      ensures modals == old(modals) && sent == old(sent) && toastsCreated == old(toastsCreated)
    {
      if timer.Some? {
        pending := pending - {timer.value};
      }
      lastActivity := now;
      var id := nextTimerId;
      nextTimerId := nextTimerId + 1;
      pending := pending + {id};
      timer := Some(id);
    }

    /** The pending timeout `id` fires: it leaves the queue and `checkIdleNudge` runs. */
    method TimerFired(id: nat, reader: ReaderOutcome, page: Page)
      requires Valid() && id in pending
      modifies this
      ensures Valid()
      ensures pending == {} && timer == old(timer) && nextTimerId == old(nextTimerId)
      ensures old(hasShownToast) ==> hasShownToast == old(hasShownToast) && toastPresent == old(toastPresent)
      ensures !old(hasShownToast) ==> hasShownToast == toastPresent == LongPage(reader, page)
      ensures modals == old(modals) && sent == old(sent) && lastActivity == old(lastActivity)
    {
      pending := pending - {id};
      CheckIdleNudge(reader, page);
    }

    /** `checkIdleNudge`: once a toast has been shown nothing happens; otherwise the toast is
        shown exactly when the extracted text is present and has at least 1500 words. */
    method CheckIdleNudge(reader: ReaderOutcome, page: Page)
      requires Valid()
      modifies this
      ensures Valid()
      ensures old(hasShownToast) ==> unchanged(this)
      ensures !old(hasShownToast) ==> hasShownToast == toastPresent == LongPage(reader, page)
      ensures timer == old(timer) && pending == old(pending) && nextTimerId == old(nextTimerId)
      ensures lastActivity == old(lastActivity) && modals == old(modals) && sent == old(sent)
    {
      if hasShownToast {
        return;
      }
      var text := ExtractReadableText(reader, page);
      if !Truthy(text) {
        return;
      }
      var wordCount := WordCount(text.value);
      if wordCount < NudgeWordCount {
        return;
      }
      ShowIdleToast();
    }

    /** `showIdleToast`: nothing if a toast is already on screen; otherwise a toast is created
        and recorded as shown. */
    method ShowIdleToast()
      modifies this
      ensures old(toastPresent) ==> unchanged(this)
      ensures !old(toastPresent) ==> toastPresent && hasShownToast && toastsCreated == old(toastsCreated) + 1
      ensures timer == old(timer) && pending == old(pending) && nextTimerId == old(nextTimerId)
      ensures lastActivity == old(lastActivity) && modals == old(modals) && sent == old(sent)
    {
      if toastPresent {
        return;
      }
      toastPresent := true;
      toastsCreated := toastsCreated + 1;
      hasShownToast := true;
    }

    /** `hideToast` (the Dismiss button): the toast goes away but stays recorded as shown, so it
        is never offered again on this page. */
    method HideToast()
      requires Valid()
      modifies this
      ensures Valid()
      ensures !toastPresent && hasShownToast == old(hasShownToast) && toastsCreated == old(toastsCreated)
      ensures timer == old(timer) && pending == old(pending) && nextTimerId == old(nextTimerId)
      ensures lastActivity == old(lastActivity) && modals == old(modals) && sent == old(sent)
    {
      if toastPresent {
        toastPresent := false;
      }
    }

    /** `summarizePage`: without readable text an error modal says so and nothing is sent;
        otherwise a page request carrying the text, title and address is sent. */
    method SummarizePage(reader: ReaderOutcome, page: Page, title: string, url: string)
      requires Valid()
      modifies this
      ensures Valid()
      ensures var text := ExtractReadableText(reader, page);
        if Truthy(text) then
          sent == old(sent) + [SummaryRequest(Mode.Page, text.value, Some(title), Some(url))] && modals == old(modals)
        else
          modals == old(modals) + [Display.ShowError(NoReadableContent)] && sent == old(sent)
      ensures timer == old(timer) && pending == old(pending) && nextTimerId == old(nextTimerId)
      ensures lastActivity == old(lastActivity) && toastPresent == old(toastPresent)
      ensures hasShownToast == old(hasShownToast) && toastsCreated == old(toastsCreated)
    {
      var text := ExtractReadableText(reader, page);
      if !Truthy(text) {
        ShowError(NoReadableContent);
        return;
      }
      SendSummaryRequest(Mode.Page, text.value, title, url);
    }

    /** The toast's Summarize button: summarize the page, then hide the toast. */
    method SummarizeFromToast(reader: ReaderOutcome, page: Page, title: string, url: string)
      requires Valid()
      modifies this
      ensures Valid()
      ensures !toastPresent && hasShownToast == old(hasShownToast)
      ensures var text := ExtractReadableText(reader, page);
        if Truthy(text) then
          sent == old(sent) + [SummaryRequest(Mode.Page, text.value, Some(title), Some(url))] && modals == old(modals)
        else
          modals == old(modals) + [Display.ShowError(NoReadableContent)] && sent == old(sent)
      ensures timer == old(timer) && pending == old(pending) && nextTimerId == old(nextTimerId)
      ensures lastActivity == old(lastActivity) && toastsCreated == old(toastsCreated)
    {
      SummarizePage(reader, page, title, url);
      HideToast();
    }

    /** Ctrl+Shift+U or Cmd+Shift+U summarizes the page; every other key does nothing here. */
    method KeyDown(ctrlKey: bool, metaKey: bool, shiftKey: bool, key: string,
                   reader: ReaderOutcome, page: Page, title: string, url: string)
      requires Valid()
      modifies this
      ensures Valid()
      ensures !((ctrlKey || metaKey) && shiftKey && key == "U") ==> unchanged(this)
      ensures (ctrlKey || metaKey) && shiftKey && key == "U" ==>
        var text := ExtractReadableText(reader, page);
        if Truthy(text) then
          sent == old(sent) + [SummaryRequest(Mode.Page, text.value, Some(title), Some(url))] && modals == old(modals)
        else
          modals == old(modals) + [Display.ShowError(NoReadableContent)] && sent == old(sent)
      ensures timer == old(timer) && pending == old(pending) && nextTimerId == old(nextTimerId)
      ensures lastActivity == old(lastActivity) && toastPresent == old(toastPresent)
      ensures hasShownToast == old(hasShownToast) && toastsCreated == old(toastsCreated)
    {
      if (ctrlKey || metaKey) && shiftKey && key == "U" {
        SummarizePage(reader, page, title, url);
      }
    }

    /** A whole `keydown` event at time `now`: the activity listener registered first by
        `startIdleTracking` resets the idle timer, then the shortcut listener runs. */
    method KeyPress(now: int, ctrlKey: bool, metaKey: bool, shiftKey: bool, key: string,
                    reader: ReaderOutcome, page: Page, title: string, url: string)
      requires Valid()
      modifies this
      ensures Valid()
      ensures timer == Some(old(nextTimerId)) && pending == {old(nextTimerId)}
      ensures nextTimerId == old(nextTimerId) + 1 && lastActivity == now
      ensures !((ctrlKey || metaKey) && shiftKey && key == "U") ==> sent == old(sent) && modals == old(modals)
      ensures (ctrlKey || metaKey) && shiftKey && key == "U" ==>
        var text := ExtractReadableText(reader, page);
        if Truthy(text) then
          sent == old(sent) + [SummaryRequest(Mode.Page, text.value, Some(title), Some(url))] && modals == old(modals)
        else
          modals == old(modals) + [Display.ShowError(NoReadableContent)] && sent == old(sent)
      ensures toastPresent == old(toastPresent) && hasShownToast == old(hasShownToast)
      ensures toastsCreated == old(toastsCreated)
    {
      ResetIdleTimer(now);
      KeyDown(ctrlKey, metaKey, shiftKey, key, reader, page, title, url);
    }

    /** A whole click on the toast's Summarize button at time `now`: the button's listener
        runs, then the click bubbles to the document's activity listener, which resets the
        idle timer. */
    method ToastSummarizeClick(now: int, reader: ReaderOutcome, page: Page, title: string, url: string)
      requires Valid()
      modifies this
      ensures Valid()
      ensures !toastPresent && hasShownToast == old(hasShownToast) && toastsCreated == old(toastsCreated)
      ensures var text := ExtractReadableText(reader, page);
        if Truthy(text) then
          sent == old(sent) + [SummaryRequest(Mode.Page, text.value, Some(title), Some(url))] && modals == old(modals)
        else
          modals == old(modals) + [Display.ShowError(NoReadableContent)] && sent == old(sent)
      ensures timer == Some(old(nextTimerId)) && pending == {old(nextTimerId)}
      ensures nextTimerId == old(nextTimerId) + 1 && lastActivity == now
    {
      SummarizeFromToast(reader, page, title, url);
      ResetIdleTimer(now);
    }

    /** A whole click on the toast's Dismiss button at time `now`: the button's listener
        removes the toast, then the click bubbles to the document's activity listener, which
        resets the idle timer. Nothing is sent and no modal is shown. */
    method ToastDismissClick(now: int)
      requires Valid()
      modifies this
      ensures Valid()
      ensures !toastPresent && hasShownToast == old(hasShownToast) && toastsCreated == old(toastsCreated)
      ensures timer == Some(old(nextTimerId)) && pending == {old(nextTimerId)}
      ensures nextTimerId == old(nextTimerId) + 1 && lastActivity == now
      ensures sent == old(sent) && modals == old(modals)
    {
      HideToast();
      ResetIdleTimer(now);
    }

    /** `sendSummaryRequest`. */
    method SendSummaryRequest(mode: Mode, text: string, title: string, url: string)
      requires Valid()
      modifies this
      ensures Valid()
      ensures sent == old(sent) + [SummaryRequest(mode, text, Some(title), Some(url))]
      ensures modals == old(modals) && timer == old(timer) && pending == old(pending)
      ensures nextTimerId == old(nextTimerId) && lastActivity == old(lastActivity)
      ensures toastPresent == old(toastPresent) && hasShownToast == old(hasShownToast)
      ensures toastsCreated == old(toastsCreated)
    {
      sent := sent + [SummaryRequest(mode, text, Some(title), Some(url))];
    }

    /** `handleSummaryResult`: the summary modal exactly when the answer is a success with a
        non-empty summary, else the error modal with the answer's error or the default text. */
    method HandleSummaryResult(message: SummaryResponse)
      requires Valid()
      modifies this
      ensures Valid()
      ensures modals == old(modals) + [Present(message)]
      ensures sent == old(sent) && timer == old(timer) && pending == old(pending)
      ensures nextTimerId == old(nextTimerId) && lastActivity == old(lastActivity)
      ensures toastPresent == old(toastPresent) && hasShownToast == old(hasShownToast)
      ensures toastsCreated == old(toastsCreated)
    {
      if message.ok && Truthy(message.summary) {
        ShowSummary(message.summary.value);
      } else {
        ShowError(OrElse(message.error, FailedToGenerate));
      }
    }

    /** `showSummary`: a summary modal is appended. */
    method ShowSummary(summary: string)
      requires Valid()
      modifies this
      ensures Valid()
      ensures modals == old(modals) + [Display.ShowSummary(summary)]
      ensures sent == old(sent) && timer == old(timer) && pending == old(pending)
      ensures nextTimerId == old(nextTimerId) && lastActivity == old(lastActivity)
      ensures toastPresent == old(toastPresent) && hasShownToast == old(hasShownToast)
      ensures toastsCreated == old(toastsCreated)
    {
      modals := modals + [Display.ShowSummary(summary)];
    }

    /** `showError`: an error modal is appended. */
    method ShowError(message: string)
      requires Valid()
      modifies this
      ensures Valid()
      ensures modals == old(modals) + [Display.ShowError(message)]
      ensures sent == old(sent) && timer == old(timer) && pending == old(pending)
      ensures nextTimerId == old(nextTimerId) && lastActivity == old(lastActivity)
      ensures toastPresent == old(toastPresent) && hasShownToast == old(hasShownToast)
      ensures toastsCreated == old(toastsCreated)
    {
      modals := modals + [Display.ShowError(message)];
    }

    /** The `chrome.runtime.onMessage` listener: a result is shown, a selection or page-text
        query is answered, anything else is ignored. */
    method OnMessage(message: Incoming) returns (reply: Option<Reply>)
      requires Valid()
      modifies this
      ensures Valid()
      ensures message.SummaryResult? ==> reply.None? && modals == old(modals) + [Present(message.response)]
      ensures message.GetSelectionRequest? ==>
        reply == Some(TextReply(GetSelection(message.selection))) && unchanged(this)
      ensures message.GetPageTextRequest? ==>
        reply == Some(TextReply(ExtractReadableText(message.reader, message.page))) && unchanged(this)
      ensures message.Unknown? ==> reply.None? && unchanged(this)
      ensures sent == old(sent) && timer == old(timer) && pending == old(pending)
      ensures nextTimerId == old(nextTimerId) && lastActivity == old(lastActivity)
      ensures toastPresent == old(toastPresent) && hasShownToast == old(hasShownToast)
      ensures toastsCreated == old(toastsCreated)
    {
      match message
      case SummaryResult(response) =>
        HandleSummaryResult(response);
        reply := None;
      case GetSelectionRequest(selection) =>
        reply := Some(TextReply(GetSelection(selection)));
      case GetPageTextRequest(reader, page) =>
        reply := Some(TextReply(ExtractReadableText(reader, page)));
      case Unknown =>
        reply := None;
    }
  }

  /** Whatever happens, at most one idle timeout is pending. */
  lemma AtMostOnePendingTimer(c: ContentScript)
    requires c.Valid()
    ensures |c.pending| <= 1
  {
    if c.pending != {} {
      var id :| id in c.pending;
      assert c.pending == {id};
    }
  }

  /** The nudge needs a page whose extracted text is present, passes the threshold and is at
      least as many characters long as the word threshold. */
  lemma LongPageNeedsAcceptedText(reader: ReaderOutcome, page: Page)
    requires LongPage(reader, page)
    ensures ExtractReadableText(reader, page).Some?
    ensures Accepted(ExtractReadableText(reader, page).value)
    ensures |ExtractReadableText(reader, page).value| >= NudgeWordCount
  {
    var text := ExtractReadableText(reader, page).value;
    ExtractedTextIsTrimmed(reader, page);
    WordsAreNonEmpty(text);
  }

  /** The words of a non-empty trimmed text are non-empty, and there are no more of them than
      characters. */
  lemma WordsAreNonEmpty(text: string)
    requires IsTrimmed(text) && text != []
    ensures forall k :: 0 <= k < |SplitWhitespace(text)| ==> SplitWhitespace(text)[k] != []
    ensures WordCount(text) <= |text|
  {
    SplitTrimmedHasNoEmptyPiece(text);
    WordsFit(text);
  }

  /** Each word of a non-empty trimmed text takes at least one character and each gap at least
      one more, so a text has no more words than characters. */
  lemma {:induction false} WordsFit(s: string)
    requires IsTrimmed(s) && s != []
    ensures |SplitWhitespace(s)| <= |s|
    decreases |s|
  {
    var w := LeadingWord(s);
    if w < |s| {
      var gap := s[w..];
      var skip := LeadingWhitespace(gap);
      var rest := gap[skip..];
      assert w >= 1;
      assert skip >= 1 && skip < |gap| by {
        assert gap[0] == s[w];
        assert gap[|gap| - 1] == s[|s| - 1];
      }
      assert rest[0] == gap[skip];
      assert rest[|rest| - 1] == s[|s| - 1];
      WordsFit(rest);
    }
  }

}
