/** The readable-text extraction chain (`extractReadableText`, `extractFallbackText`): a fixed
    priority list of candidate texts, each accepted only when its trimmed length exceeds 200.
    The document is given by what the chain reads from it. */
module Readability {
  import opened Wrappers
  import opened Text

  /** Fewest characters a candidate must exceed to be accepted. */
  const Threshold: nat := 200

  /** Fewest characters a paragraph must exceed to join the paragraph cluster. */
  const ParagraphThreshold: nat := 50

  /** The content-container selectors, tried in this order. */
  const MainSelectors: seq<string> :=
    ["main", "[role=\"main\"]", ".main-content", ".content", ".post-content", ".article-content", "#content", "#main"]

  /** What the chain reads from the page: the text of every `<article>`, the text of the first
      element matching each selector that matches anything, the text of every `<p>`, and the
      body text, all in document order. */
  datatype Page = Page(articles: seq<string>, firstMatch: map<string, string>, paragraphs: seq<string>, body: string)

  /** `new Readability(clone).parse()`: it throws, or it yields the article's `textContent`
      (`None` for a null article or a null text). */
  datatype ReaderOutcome = Threw | Parsed(textContent: Option<string>)

  /** `text && text.length > 200`. */
  predicate Accepted(text: string) {
    |text| > Threshold
  }

  /** `t` if it passes the threshold, `None` otherwise. */
  function Gate(t: string): (r: Option<string>)
    ensures r.Some? <==> Accepted(t)
    ensures r.Some? ==> r.value == t
  {
    if Accepted(t) then Some(t) else None
  }

  /** The trimmed lengths of the given texts. */
  function TrimmedLengths(texts: seq<string>): (lens: seq<nat>)
    ensures |lens| == |texts|
    ensures forall j :: 0 <= j < |texts| ==> lens[j] == |Trim(texts[j])|
  {
    seq(|texts|, j requires 0 <= j < |texts| => |Trim(texts[j])|)
  }

  /** The step of the `reduce`: scanning has reached `i`, and `best` is the winner so far; a
      later element replaces it only when strictly greater. */
  function FirstMaxFrom(lens: seq<nat>, best: nat, i: nat): (k: nat)
    requires best < i <= |lens|
    requires forall j :: 0 <= j < i ==> lens[j] <= lens[best]
    requires forall j :: 0 <= j < best ==> lens[j] < lens[best]
    ensures k < |lens|
    ensures forall j :: 0 <= j < |lens| ==> lens[j] <= lens[k]
    ensures forall j :: 0 <= j < k ==> lens[j] < lens[k]
    decreases |lens| - i
  {
    if i == |lens| then best
    else if lens[i] > lens[best] then FirstMaxFrom(lens, i, i + 1)
    else FirstMaxFrom(lens, best, i + 1)
  }

  /** The whole scan: the first index holding the largest length. */
  function FirstMax(lens: seq<nat>): (k: nat)
    requires |lens| > 0
    ensures k < |lens|
    ensures forall j :: 0 <= j < |lens| ==> lens[j] <= lens[k]
    ensures forall j :: 0 <= j < k ==> lens[j] < lens[k]
  {
    FirstMaxFrom(lens, 0, 1)
  }

  /** `articles.reduce(...)` without an initial value, comparing trimmed lengths with `>`:
      the index of the first article whose trimmed text is longest. */
  function LargestArticle(articles: seq<string>): (k: nat)
    requires |articles| > 0
    ensures k < |articles|
    ensures forall j :: 0 <= j < |articles| ==> |Trim(articles[j])| <= |Trim(articles[k])|
    ensures forall j :: 0 <= j < k ==> |Trim(articles[j])| < |Trim(articles[k])|
  {
    FirstMax(TrimmedLengths(articles))
  }

  /** Step 1 of the fallback: the largest article, if it passes the threshold. */
  function ArticleText(page: Page): (r: Option<string>)
    ensures r.Some? ==> exists k :: (0 <= k < |page.articles| && r.value == Trim(page.articles[k])
      && (forall j :: 0 <= j < |page.articles| ==> |Trim(page.articles[j])| <= |r.value|)
      && (forall j :: 0 <= j < k ==> |Trim(page.articles[j])| < |r.value|))
    ensures r.None? <==> forall j :: 0 <= j < |page.articles| ==> !Accepted(Trim(page.articles[j]))
  {
    if |page.articles| > 0 then
      var k := LargestArticle(page.articles);
      Gate(Trim(page.articles[k]))
    else None
  }

  /** The first match of selector `selectors[i]` yields the accepted text `v`, and no earlier
      selector's first match is accepted. */
  predicate WinsAt(selectors: seq<string>, firstMatch: map<string, string>, i: int, v: string) {
    && 0 <= i < |selectors| && selectors[i] in firstMatch
    && v == Trim(firstMatch[selectors[i]]) && Accepted(v)
    && forall j :: 0 <= j < i && selectors[j] in firstMatch ==> !Accepted(Trim(firstMatch[selectors[j]]))
  }

  /** Step 2 of the fallback: the selectors from `selectors` tried in order; the first whose
      first match has an accepted trimmed text wins. */
  function SelectorText(selectors: seq<string>, firstMatch: map<string, string>): (r: Option<string>)
    ensures r.None? <==>
      forall i :: 0 <= i < |selectors| && selectors[i] in firstMatch ==> !Accepted(Trim(firstMatch[selectors[i]]))
    ensures r.Some? ==> exists i :: WinsAt(selectors, firstMatch, i, r.value)
  {
    if selectors == [] then None
    else
      var rest := SelectorText(selectors[1..], firstMatch);
      var here := if selectors[0] in firstMatch then Gate(Trim(firstMatch[selectors[0]])) else None;
      if here.Some? then
        assert WinsAt(selectors, firstMatch, 0, here.value);
        here
      else
        assert forall i :: 1 <= i < |selectors| ==> selectors[i] == selectors[1..][i - 1];
        if rest.Some? then
          ghost var i :| WinsAt(selectors[1..], firstMatch, i, rest.value);
          assert WinsAt(selectors, firstMatch, i + 1, rest.value);
          rest
        else rest
  }

  /** The trimmed paragraphs longer than 50 characters, in document order. */
  function LongParagraphs(paragraphs: seq<string>): (r: seq<string>)
    ensures forall x :: x in r ==> |x| > ParagraphThreshold && IsTrimmed(x)
    ensures |r| <= |paragraphs|
  {
    if paragraphs == [] then []
    else
      var t := Trim(paragraphs[0]);
      (if |t| > ParagraphThreshold then [t] else []) + LongParagraphs(paragraphs[1..])
  }

  /** Order is kept: filtering a concatenation filters each part. */
  lemma {:induction false} LongParagraphsAppend(a: seq<string>, b: seq<string>)
    ensures LongParagraphs(a + b) == LongParagraphs(a) + LongParagraphs(b)
  {
    if a == [] {
      assert a + b == b;
    } else {
      assert (a + b)[0] == a[0];
      assert (a + b)[1..] == a[1..] + b;
      LongParagraphsAppend(a[1..], b);
    }
  }

  /** A trimmed paragraph is in the cluster exactly when it is longer than 50 characters. */
  lemma {:induction false} LongParagraphsMembers(paragraphs: seq<string>, x: string)
    ensures x in LongParagraphs(paragraphs) <==>
      exists i :: 0 <= i < |paragraphs| && x == Trim(paragraphs[i]) && |x| > ParagraphThreshold
  {
    if paragraphs != [] {
      LongParagraphsMembers(paragraphs[1..], x);
      var t := Trim(paragraphs[0]);
      if x in LongParagraphs(paragraphs[1..]) {
        var i :| 0 <= i < |paragraphs[1..]| && x == Trim(paragraphs[1..][i]) && |x| > ParagraphThreshold;
        assert paragraphs[i + 1] == paragraphs[1..][i];
      }
      if exists i :: 0 <= i < |paragraphs| && x == Trim(paragraphs[i]) && |x| > ParagraphThreshold {
        var i :| 0 <= i < |paragraphs| && x == Trim(paragraphs[i]) && |x| > ParagraphThreshold;
        if i > 0 {
          assert paragraphs[1..][i - 1] == paragraphs[i];
        }
      }
    }
  }

  /** Step 3 of the fallback: the long paragraphs joined by blank lines, if that passes the threshold. */
  function ParagraphText(page: Page): (r: Option<string>)
    ensures r.Some? ==> r.value == Join(LongParagraphs(page.paragraphs), "\n\n") && Accepted(r.value)
    ensures r.None? ==> !Accepted(Join(LongParagraphs(page.paragraphs), "\n\n"))
  {
    if |page.paragraphs| > 0 then Gate(Join(LongParagraphs(page.paragraphs), "\n\n")) else None
  }

  /** `extractFallbackText()`: article, then selectors, then paragraphs, then the body text. */
  function FallbackText(page: Page): (r: Option<string>)
    ensures r.Some? ==> Accepted(r.value)
    ensures ArticleText(page).Some? ==> r == ArticleText(page)
    ensures ArticleText(page).None? && SelectorText(MainSelectors, page.firstMatch).Some? ==>
      r == SelectorText(MainSelectors, page.firstMatch)
    ensures (ArticleText(page).None? && SelectorText(MainSelectors, page.firstMatch).None?
             && ParagraphText(page).Some?) ==> r == ParagraphText(page)
    ensures (ArticleText(page).None? && SelectorText(MainSelectors, page.firstMatch).None?
             && ParagraphText(page).None?) ==> r == Gate(Trim(page.body))
  {
    match ArticleText(page)
    case Some(t) => Some(t)
    case None =>
      match SelectorText(MainSelectors, page.firstMatch)
      case Some(t) => Some(t)
      case None =>
        match ParagraphText(page)
        case Some(t) => Some(t)
        case None => Gate(Trim(page.body))
  }

  /** `extractReadableText()`: Readability's article text when it passes the threshold,
      otherwise (including when Readability throws) the fallback chain. */
  function ExtractReadableText(reader: ReaderOutcome, page: Page): (r: Option<string>)
    ensures r.Some? ==> Accepted(r.value)
    ensures reader.Parsed? && reader.textContent.Some? && Accepted(Trim(reader.textContent.value)) ==>
      r == Some(Trim(reader.textContent.value))
    ensures !(reader.Parsed? && reader.textContent.Some? && Accepted(Trim(reader.textContent.value))) ==>
      r == FallbackText(page)
  {
    match reader
    case Threw => FallbackText(page)
    case Parsed(text) =>
      if text.Some? && text.value != "" && Accepted(Trim(text.value)) then Some(Trim(text.value))
      else FallbackText(page)
  }

  /** The result is null only when every candidate fails the threshold. */
  lemma NullOnlyWhenEveryCandidateFails(reader: ReaderOutcome, page: Page)
    ensures ExtractReadableText(reader, page).None? <==>
      && !(reader.Parsed? && reader.textContent.Some? && Accepted(Trim(reader.textContent.value)))
      && (forall j :: 0 <= j < |page.articles| ==> !Accepted(Trim(page.articles[j])))
      && (forall i :: 0 <= i < |MainSelectors| && MainSelectors[i] in page.firstMatch ==>
            !Accepted(Trim(page.firstMatch[MainSelectors[i]])))
      && !(|page.paragraphs| > 0 && Accepted(Join(LongParagraphs(page.paragraphs), "\n\n")))
      && !Accepted(Trim(page.body))
  {
  }

  /** The join of non-empty trimmed pieces starts with the first piece's first character and
      ends with the last piece's last character, so it is trimmed. */
  lemma {:induction false} JoinTrimmed(xs: seq<string>, sep: string)
    requires forall i :: 0 <= i < |xs| ==> xs[i] != [] && IsTrimmed(xs[i])
    ensures IsTrimmed(Join(xs, sep))
    ensures xs != [] ==> (|Join(xs, sep)| > 0 && Join(xs, sep)[0] == xs[0][0]
      && Join(xs, sep)[|Join(xs, sep)| - 1] == xs[|xs| - 1][|xs[|xs| - 1]| - 1])
  {
    if |xs| > 1 {
      var tail := xs[1..];
      assert forall i :: 0 <= i < |tail| ==> tail[i] == xs[i + 1];
      JoinTrimmed(tail, sep);
      var rest := Join(tail, sep);
      assert Join(xs, sep) == xs[0] + sep + rest;
      assert tail[|tail| - 1] == xs[|xs| - 1];
    }
  }

  /** Every candidate the fallback chain can return is a trimmed text. */
  lemma FallbackTextIsTrimmed(page: Page)
    requires FallbackText(page).Some?
    ensures IsTrimmed(FallbackText(page).value)
  {
    var kept := LongParagraphs(page.paragraphs);
    assert forall i :: 0 <= i < |kept| ==> kept[i] in kept;
    JoinTrimmed(kept, "\n\n");
  }

  /** Whatever source wins, the text handed on has no leading or trailing whitespace. */
  lemma ExtractedTextIsTrimmed(reader: ReaderOutcome, page: Page)
    requires ExtractReadableText(reader, page).Some?
    ensures IsTrimmed(ExtractReadableText(reader, page).value)
  {
    if ExtractReadableText(reader, page) == FallbackText(page) {
      FallbackTextIsTrimmed(page);
    }
  }
}
