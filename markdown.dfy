/** The popup's mini-Markdown renderer (`renderMarkdown`): a fixed chain of regular-expression
    replacements, each written out as a function with JavaScript's matching rules made explicit:
    matches are searched from left to right and never overlap, `(.*?)` is lazy, `(.*)` greedy,
    `.` matches anything but a line terminator unless the `s` flag is set, and `^` under the `m`
    flag holds at the start of the input and after every line terminator. */
module Markdown {
  import opened Wrappers
  import opened Text

  /** `<tag>inner</tag>`. */
  function Element(tag: string, inner: string): string {
    "<" + tag + ">" + inner + "</" + tag + ">"
  }

  /** Where the lazy group of `d(.*?)d` ends when the text after the opening delimiter is `t`:
      the first offset at which `d` starts again, provided no line terminator comes before it. */
  function FindClose(t: string, d: string): (r: Option<nat>)
    requires d != []
    ensures r.Some? ==> r.value + |d| <= |t|
    decreases |t|
  {
    if StartsWith(t, d) then Some(0)
    else if t == [] || IsLineTerminator(t[0]) then None
    else
      var rest := FindClose(t[1..], d);
      if rest.Some? then Some(rest.value + 1) else None
  }

  /** The lazy group ends at the leftmost occurrence of the delimiter that no line terminator
      precedes; when there is none, no occurrence is reachable without crossing a line end. */
  lemma {:induction false} FindCloseLeftmost(t: string, d: string)
    requires d != []
    ensures FindClose(t, d).Some? ==>
      var k := FindClose(t, d).value;
      && StartsWith(t[k..], d) && NoLineTerminator(t[..k])
      && forall j :: 0 <= j < k ==> !StartsWith(t[j..], d)
    ensures FindClose(t, d).None? ==>
      forall j :: 0 <= j <= |t| && NoLineTerminator(t[..j]) ==> !StartsWith(t[j..], d)
    decreases |t|
  {
    assert t[0..] == t;
    if StartsWith(t, d) {
    } else if t == [] || IsLineTerminator(t[0]) {
      forall j | 0 < j <= |t| ensures !NoLineTerminator(t[..j]) {
        assert t[..j][0] == t[0];
      }
    } else {
      FindCloseLeftmost(t[1..], d);
      var rest := FindClose(t[1..], d);
      if rest.Some? {
        forall j | 1 <= j < rest.value + 1 ensures !StartsWith(t[j..], d) {
          assert t[j..] == t[1..][j - 1..];
        }
        assert t[rest.value + 1..] == t[1..][rest.value..];
        assert t[..rest.value + 1] == [t[0]] + t[1..][..rest.value];
      } else {
        forall j | 1 <= j <= |t| && NoLineTerminator(t[..j]) ensures !StartsWith(t[j..], d) {
          assert t[j..] == t[1..][j - 1..];
          assert t[1..][..j - 1] == t[..j][1..];
        }
      }
    }
  }

  /** `.replace(/d(.*?)d/g, '<tag>$1</tag>')` for a delimiter `d`. */
  function ReplaceDelimited(s: string, d: string, tag: string): (r: string)
    requires d != []
    decreases |s|
  {
    if s == [] then []
    else if StartsWith(s, d) && FindClose(s[|d|..], d).Some? then
      var j := FindClose(s[|d|..], d).value;
      Element(tag, s[|d|..|d| + j]) + ReplaceDelimited(s[|d| + j + |d|..], d, tag)
    else [s[0]] + ReplaceDelimited(s[1..], d, tag)
  }

  /** Bold (`**`, `__`), then italic (`*`, `_`), then inline code, in the source's order. */
  function Emphasis(s: string): string {
    var bold := ReplaceDelimited(ReplaceDelimited(s, "**", "strong"), "__", "strong");
    var italic := ReplaceDelimited(ReplaceDelimited(bold, "*", "em"), "_", "em");
    ReplaceDelimited(italic, "`", "code")
  }

  /** `.replace(/\n/g, '<br>')`. */
  function BreakLines(s: string): (r: string)
    ensures '\n' !in r
    ensures |r| >= |s|
  {
    if s == [] then []
    else (if s[0] == '\n' then "<br>" else [s[0]]) + BreakLines(s[1..])
  }

  /** Number of characters before the first line terminator: what the greedy `(.*)` takes. */
  function LineLength(s: string): (n: nat)
    ensures n <= |s|
    ensures NoLineTerminator(s[..n])
    ensures n == |s| || IsLineTerminator(s[n])
  {
    if s != [] && !IsLineTerminator(s[0]) then
      var n := 1 + LineLength(s[1..]);
      assert s[..n] == [s[0]] + s[1..][..n - 1];
      n
    else 0
  }

  /** `.replace(/^[-*]\s+(.*)$/gm, '<li>$1</li>')`; `atLineStart` says whether `^` holds at the
      front of `s` (the input starts there, or the character before it ends a line). The greedy
      `\s+` may run across line ends; the greedy `(.*)` stops at the next one, where `$` holds. */
  function BulletLines(s: string, atLineStart: bool): (r: string)
    decreases |s|
  {
    if s == [] then []
    else if BulletAt(s, atLineStart) then
      Element("li", s[ItemStart(s)..ItemEnd(s)]) + BulletLines(s[ItemEnd(s)..], IsLineTerminator(s[ItemEnd(s) - 1]))
    else [s[0]] + BulletLines(s[1..], IsLineTerminator(s[0]))
  }

  /** `^[-*]\s+` matches at the front of `s`. */
  predicate BulletAt(s: string, atLineStart: bool) {
    atLineStart && s != [] && (s[0] == '-' || s[0] == '*') && |s| > 1 && IsWhitespace(s[1])
  }

  /** Where the item text starts: after the marker and the whole whitespace run. */
  function ItemStart(s: string): (i: nat)
    requires |s| > 1 && IsWhitespace(s[1])
    ensures 2 <= i <= |s|
  {
    1 + LeadingWhitespace(s[1..])
  }

  /** Where the item text ends: at the next line terminator, or at the end of `s`. */
  function ItemEnd(s: string): (j: nat)
    requires |s| > 1 && IsWhitespace(s[1])
    ensures ItemStart(s) <= j <= |s|
  {
    ItemStart(s) + LineLength(s[ItemStart(s)..])
  }

  /** `s.indexOf(p)`, searching from index `from`. */
  function FirstIndexFrom(s: string, p: string, from: nat): (r: Option<nat>)
    requires from <= |s| + 1
    ensures r.Some? ==> from <= r.value && InfixAt(p, s, r.value)
    ensures r.Some? ==> forall j :: from <= j < r.value ==> !InfixAt(p, s, j)
    ensures r.None? ==> forall j :: from <= j <= |s| ==> !InfixAt(p, s, j)
    decreases |s| + 1 - from
  {
    if from > |s| then None
    else if InfixAt(p, s, from) then Some(from)
    else FirstIndexFrom(s, p, from + 1)
  }

  /** `s.lastIndexOf(p)`, searching from index `upTo` down. */
  function LastIndexUpTo(s: string, p: string, upTo: int): (r: Option<nat>)
    requires upTo <= |s|
    ensures r.Some? ==> r.value <= upTo && InfixAt(p, s, r.value)
    ensures r.Some? ==> forall j :: r.value < j <= upTo ==> !InfixAt(p, s, j)
    ensures r.None? ==> forall j :: 0 <= j <= upTo ==> !InfixAt(p, s, j)
    decreases upTo + 1
  {
    if upTo < 0 then None
    else if InfixAt(p, s, upTo) then Some(upTo)
    else LastIndexUpTo(s, p, upTo - 1)
  }

  function FirstIndex(s: string, p: string): (r: Option<nat>)
    ensures r.Some? ==> InfixAt(p, s, r.value) && forall j :: 0 <= j < r.value ==> !InfixAt(p, s, j)
    ensures r.None? ==> !IsInfix(p, s)
  {
    FirstIndexFrom(s, p, 0)
  }

  function LastIndex(s: string, p: string): (r: Option<nat>)
    ensures r.Some? ==> InfixAt(p, s, r.value) && forall j :: r.value < j <= |s| ==> !InfixAt(p, s, j)
    ensures r.None? ==> !IsInfix(p, s)
  {
    LastIndexUpTo(s, p, |s|)
  }

  /** `s` with `<ul>` inserted before index `i` and `</ul>` before index `k`. */
  function Wrapped(s: string, i: nat, k: nat): (r: string)
    requires i <= k <= |s|
    ensures |r| == |s| + |"<ul></ul>"|
  {
    s[..i] + "<ul>" + s[i..k] + "</ul>" + s[k..]
  }

  lemma WrappedAddsOnlyTags(s: string, i: nat, k: nat, c: char)
    requires i <= k <= |s| && c !in s && c !in "<ul></ul>"
    ensures c !in Wrapped(s, i, k)
  {
    assert c !in "<ul>" && c !in "</ul>";
    assert c !in s[..i] && c !in s[i..k] && c !in s[k..];
  }

  /** `.replace(/(<li>.*<\/li>)/s, '<ul>$1</ul>')`: no `g` flag, so at most one match is
      replaced; with the `s` flag the greedy `.*` crosses everything, so the match runs from the
      first `<li>` to the last `</li>` after it. */
  function WrapList(s: string): (r: string)
    ensures r == s || |r| == |s| + |"<ul></ul>"|
  {
    match FirstIndex(s, "<li>")
    case None => s
    case Some(i) =>
      match LastIndex(s, "</li>")
      case None => s
      case Some(j) =>
        if i <= j then Wrapped(s, i, j + 5) else s
  }

  /** Without both an `<li>` and a later `</li>` nothing is replaced; otherwise exactly one
      `<ul>`/`</ul>` pair is inserted, before the first `<li>` and after the last `</li>`. */
  lemma WrapListShape(s: string)
    ensures !IsInfix("<li>", s) || !IsInfix("</li>", s) ==> WrapList(s) == s
    ensures WrapList(s) != s ==> exists i, k :: (0 <= i < k <= |s|
      && WrapList(s) == Wrapped(s, i, k)
      && InfixAt("<li>", s, i) && (forall j :: 0 <= j < i ==> !InfixAt("<li>", s, j))
      && InfixAt("</li>", s, k - 5) && (forall j :: k - 5 < j <= |s| ==> !InfixAt("</li>", s, j)))
  {
  }

  /** `renderMarkdown(text)`, as written. */
  function RenderMarkdown(s: string): (r: string)
    ensures '\n' !in r
  {
    var broken := BreakLines(Emphasis(s));
    BulletLinesKeepNoNewline(broken, true);
    WrapListKeepsNoNewline(BulletLines(broken, true));
    WrapList(BulletLines(broken, true))
  }

  /** `renderMarkdown` with the bullet rule applied while the line ends are still there. */
  function RenderMarkdownCorrected(s: string): (r: string)
    ensures '\n' !in r
  {
    var broken := BreakLines(BulletLines(Emphasis(s), true));
    WrapListKeepsNoNewline(broken);
    WrapList(broken)
  }

  lemma SliceChars(s: string, i: int, j: int, c: char)
    requires 0 <= i <= j <= |s| && c !in s
    ensures c !in s[i..j]
  {
  }

  lemma {:induction false} BulletLinesKeepNoNewline(s: string, atLineStart: bool)
    requires '\n' !in s
    ensures '\n' !in BulletLines(s, atLineStart)
    decreases |s|
  {
    if s != [] {
      if BulletAt(s, atLineStart) {
        var end := ItemEnd(s);
        var rest := s[end..];
        ItemKeepsNoNewline(s, ItemStart(s), end);
        BulletLinesKeepNoNewline(rest, IsLineTerminator(s[end - 1]));
      } else {
        SliceChars(s, 1, |s|, '\n');
        BulletLinesKeepNoNewline(s[1..], IsLineTerminator(s[0]));
      }
    }
  }

  lemma ItemKeepsNoNewline(s: string, i: int, j: int)
    requires 0 <= i <= j <= |s| && '\n' !in s
    ensures '\n' !in Element("li", s[i..j]) && '\n' !in s[j..]
  {
    SliceChars(s, i, j, '\n');
    SliceChars(s, j, |s|, '\n');
    ElementChars("li", s[i..j], '\n');
  }

  lemma WrapListKeepsNoNewline(s: string)
    requires '\n' !in s
    ensures '\n' !in WrapList(s)
  {
    var first := FirstIndex(s, "<li>");
    var last := LastIndex(s, "</li>");
    if first.Some? && last.Some? && first.value <= last.value {
      WrappedAddsOnlyTags(s, first.value, last.value + 5, '\n');
    }
  }

  // ---------------------------------------------------------------------------------------------
  // Plain text and emphasis

  /** Text no rule of the renderer reacts to inside a line. */
  predicate PlainText(x: string) {
    NoLineTerminator(x) && '*' !in x && '_' !in x && '`' !in x && '<' !in x
  }

  lemma {:induction false} ReplaceDelimitedIdentity(s: string, d: string, tag: string)
    requires d != [] && d[0] !in s
    ensures ReplaceDelimited(s, d, tag) == s
    decreases |s|
  {
    if s != [] {
      assert !StartsWith(s, d) by { assert s[0] != d[0]; }
      ReplaceDelimitedIdentity(s[1..], d, tag);
    }
  }

  lemma EmphasisIdentity(s: string)
    requires '*' !in s && '_' !in s && '`' !in s
    ensures Emphasis(s) == s
  {
    ReplaceDelimitedIdentity(s, "**", "strong");
    ReplaceDelimitedIdentity(s, "__", "strong");
    ReplaceDelimitedIdentity(s, "*", "em");
    ReplaceDelimitedIdentity(s, "_", "em");
    ReplaceDelimitedIdentity(s, "`", "code");
  }

  lemma {:induction false} BreakLinesIdentity(s: string)
    requires '\n' !in s
    ensures BreakLines(s) == s
  {
    if s != [] {
      assert s[0] != '\n';
      BreakLinesIdentity(s[1..]);
    }
  }

  lemma {:induction false} BulletLinesIdentity(s: string, atLineStart: bool)
    requires NoLineTerminator(s)
    requires atLineStart && s != [] ==> s[0] != '-' && s[0] != '*'
    ensures BulletLines(s, atLineStart) == s
    decreases |s|
  {
    if s != [] {
      assert !IsLineTerminator(s[0]);
      BulletLinesIdentity(s[1..], false);
    }
  }

  /** Input with no emphasis delimiter, no line terminator, no leading bullet marker and no literal
      `<li>` comes back unchanged, from the renderer as written and from the corrected one. */
  lemma PlainTextUnchanged(s: string)
    requires '*' !in s && '_' !in s && '`' !in s && NoLineTerminator(s)
    requires s == [] || s[0] != '-'
    requires !IsInfix("<li>", s)
    ensures RenderMarkdown(s) == s
    ensures RenderMarkdownCorrected(s) == s
  {
    EmphasisIdentity(s);
    RenderAfterEmphasis(s, s);
  }

  /** Once emphasis has produced a single line that neither starts with a bullet marker nor holds
      a literal `<li>`, no later step changes it. */
  lemma RenderAfterEmphasis(s: string, e: string)
    requires Emphasis(s) == e && NoLineTerminator(e)
    requires e == [] || (e[0] != '-' && e[0] != '*')
    requires !IsInfix("<li>", e)
    ensures RenderMarkdown(s) == e
    ensures RenderMarkdownCorrected(s) == e
  {
    assert '\n' !in e by {
      forall i | 0 <= i < |e| ensures e[i] != '\n' {
        assert !IsLineTerminator(e[i]);
      }
    }
    BreakLinesIdentity(e);
    BulletLinesIdentity(e, true);
    WrapListShape(e);
  }

  /** The lazy group of `**(.*?)**` over `x**` ends just before the closing `**`. */
  lemma {:induction false} FindCloseAfterPlain(x: string, d: string)
    requires d != [] && NoLineTerminator(x) && d[0] !in x
    ensures FindClose(x + d, d) == Some(|x|)
    decreases |x|
  {
    var t := x + d;
    if x == [] {
      assert t == d && t[..|d|] == d;
    } else {
      assert t[..|d|][0] == x[0] && x[0] != d[0];
      assert t[0] == x[0] && !IsLineTerminator(x[0]);
      assert t[1..] == x[1..] + d;
      FindCloseAfterPlain(x[1..], d);
    }
  }


  lemma ElementHasNoListOpen(tag: string, x: string)
    requires '<' !in tag && '<' !in x && tag != [] && tag[0] != 'l'
    ensures !IsInfix("<li>", Element(tag, x))
  {
    var a, b := "<" + tag + ">", "</" + tag + ">";
    var e := Element(tag, x);
    assert e == a + x + b;
    forall i | 0 <= i <= |e| ensures !InfixAt("<li>", e, i) {
      if i + 4 <= |e| {
        assert e[i..i + 4][0] == e[i] && e[i..i + 4][1] == e[i + 1];
        assert e[i] != '<' || e[i + 1] != 'l';
      }
    }
  }

  lemma ElementChars(tag: string, x: string, c: char)
    requires c !in tag && c !in x && c !in "</>"
    ensures c !in Element(tag, x)
  {
  }

  lemma ElementNoLineTerminator(tag: string, x: string)
    requires NoLineTerminator(tag) && NoLineTerminator(x)
    ensures NoLineTerminator(Element(tag, x)) && Element(tag, x)[0] == '<'
  {
    var e := Element(tag, x);
    assert e == "<" + tag + ">" + x + "</" + tag + ">";
  }

  /** One step of the replacement at a complete match of the pattern. */
  lemma ReplaceDelimitedAtMatch(s: string, d: string, tag: string, j: nat)
    requires d != [] && StartsWith(s, d) && FindClose(s[|d|..], d) == Some(j)
    ensures |d| + j + |d| <= |s|
    ensures ReplaceDelimited(s, d, tag) == Element(tag, s[|d|..|d| + j]) + ReplaceDelimited(s[|d| + j + |d|..], d, tag)
  {
  }

  /** `d x d` with no `d[0]` and no line end inside `x` is one complete match. */
  lemma ReplaceDelimitedWhole(x: string, d: string, tag: string)
    requires d != [] && NoLineTerminator(x) && d[0] !in x
    ensures ReplaceDelimited(d + x + d, d, tag) == Element(tag, x)
  {
    var s := d + x + d;
    assert StartsWith(s, d) && FindClose(s[|d|..], d) == Some(|x|) by {
      FindCloseAfterPlain(x, d);
      assert s[|d|..] == x + d;
    }
    ReplaceDelimitedAtMatch(s, d, tag, |x|);
    assert s[|d|..|d| + |x|] == x;
    assert s[|d| + |x| + |d|..] == [];
  }

  /** Bold is replaced before italic, so `**x**` becomes a `strong` element and not a pair of
      nested `em` elements. */
  lemma BoldRendersStrong(x: string)
    requires PlainText(x)
    ensures RenderMarkdown("**" + x + "**") == Element("strong", x)
    ensures RenderMarkdownCorrected("**" + x + "**") == Element("strong", x)
  {
    var e := Element("strong", x);
    EmphasisOfBold(x);
    ElementHasNoListOpen("strong", x);
    ElementNoLineTerminator("strong", x);
    RenderAfterEmphasis("**" + x + "**", e);
  }

  lemma EmphasisOfBold(x: string)
    requires PlainText(x)
    ensures Emphasis("**" + x + "**") == Element("strong", x)
  {
    var e := Element("strong", x);
    assert ReplaceDelimited("**" + x + "**", "**", "strong") == e by {
      ReplaceDelimitedWhole(x, "**", "strong");
    }
    StrongChars(x);
    AfterBoldIdentity(e);
  }

  lemma StrongChars(x: string)
    requires PlainText(x)
    ensures '*' !in Element("strong", x) && '_' !in Element("strong", x) && '`' !in Element("strong", x)
  {
    ElementChars("strong", x, '*');
    ElementChars("strong", x, '_');
    ElementChars("strong", x, '`');
  }

  /** The rules after `**` leave text without `*`, `_` and backticks alone. */
  lemma AfterBoldIdentity(e: string)
    requires '*' !in e && '_' !in e && '`' !in e
    ensures ReplaceDelimited(ReplaceDelimited(ReplaceDelimited(ReplaceDelimited(e, "__", "strong"), "*", "em"), "_", "em"), "`", "code") == e
  {
    ReplaceDelimitedIdentity(e, "__", "strong");
    ReplaceDelimitedIdentity(e, "*", "em");
    ReplaceDelimitedIdentity(e, "_", "em");
    ReplaceDelimitedIdentity(e, "`", "code");
  }

  // ---------------------------------------------------------------------------------------------
  // Bullet lists

  /** A list entry the inline rules leave alone: plain, non-empty, not starting with whitespace. */
  predicate PlainItem(x: string) {
    PlainText(x) && x != [] && !IsWhitespace(x[0])
  }

  /** The lines `- x` of a Markdown bullet list. */
  function Bulleted(xs: seq<string>): (r: seq<string>)
    ensures |r| == |xs|
    ensures forall i :: 0 <= i < |xs| ==> r[i] == "- " + xs[i]
  {
    if xs == [] then [] else ["- " + xs[0]] + Bulleted(xs[1..])
  }

  /** The `<li>x</li>` elements of a list. */
  function Items(xs: seq<string>): (r: seq<string>)
    ensures |r| == |xs|
    ensures forall i :: 0 <= i < |xs| ==> r[i] == Element("li", xs[i])
  {
    if xs == [] then [] else [Element("li", xs[0])] + Items(xs[1..])
  }

  lemma ElementEnds(tag: string, x: string)
    ensures StartsWith(Element(tag, x), "<" + tag + ">")
    ensures EndsWith(Element(tag, x), "</" + tag + ">")
  {
    Concat3Ends("<" + tag + ">", x, "</" + tag + ">");
    assert Element(tag, x) == ("<" + tag + ">") + x + ("</" + tag + ">");
  }

  lemma {:induction false} JoinEnds(xs: seq<string>, sep: string)
    requires |xs| >= 1
    ensures StartsWith(Join(xs, sep), xs[0])
    ensures EndsWith(Join(xs, sep), xs[|xs| - 1])
  {
    if |xs| == 1 {
      Concat3Ends(xs[0], [], []);
      assert xs[0] + [] + [] == xs[0];
    } else {
      var rest := Join(xs[1..], sep);
      JoinEnds(xs[1..], sep);
      Concat3Ends(xs[0], sep, rest);
      EndsWithTransitive(Join(xs, sep), rest, xs[|xs| - 1]);
    }
  }

  lemma {:induction false} JoinNoLineTerminator(xs: seq<string>, sep: string)
    requires NoLineTerminator(sep)
    requires forall i :: 0 <= i < |xs| ==> NoLineTerminator(xs[i])
    ensures NoLineTerminator(Join(xs, sep))
  {
    if |xs| > 1 {
      JoinNoLineTerminator(xs[1..], sep);
    }
  }

  lemma {:induction false} JoinExcludes(xs: seq<string>, sep: string, c: char)
    requires c !in sep
    requires forall i :: 0 <= i < |xs| ==> c !in xs[i]
    ensures c !in Join(xs, sep)
  {
    if |xs| > 1 {
      JoinExcludes(xs[1..], sep, c);
    }
  }

  lemma NoNewline(s: string)
    requires NoLineTerminator(s)
    ensures '\n' !in s
  {
    forall i | 0 <= i < |s| ensures s[i] != '\n' {
      assert !IsLineTerminator(s[i]);
    }
  }

  lemma {:induction false} BreakLinesAppend(a: string, b: string)
    ensures BreakLines(a + b) == BreakLines(a) + BreakLines(b)
    decreases |a|
  {
    if a == [] {
      assert a + b == b;
    } else {
      var head := if a[0] == '\n' then "<br>" else [a[0]];
      assert (a + b)[0] == a[0] && (a + b)[1..] == a[1..] + b;
      assert BreakLines(a + b) == head + BreakLines(a[1..] + b);
      BreakLinesAppend(a[1..], b);
      assert BreakLines(a) == head + BreakLines(a[1..]);
    }
  }

  /** Joining lines with `\n` and then breaking them is joining them with `<br>`. */
  lemma {:induction false} BreakLinesJoin(ys: seq<string>)
    requires forall i :: 0 <= i < |ys| ==> '\n' !in ys[i]
    ensures BreakLines(Join(ys, "\n")) == Join(ys, "<br>")
  {
    if |ys| == 1 {
      BreakLinesIdentity(ys[0]);
    } else if |ys| > 1 {
      var rest := Join(ys[1..], "\n");
      BreakLinesJoin(ys[1..]);
      BreakLinesAppend(ys[0] + "\n", rest);
      BreakLinesAppend(ys[0], "\n");
      BreakLinesIdentity(ys[0]);
      assert BreakLines("\n") == "<br>";
    }
  }

  lemma {:induction false} LineLengthBefore(x: string, t: string)
    requires NoLineTerminator(x) && (t == [] || IsLineTerminator(t[0]))
    ensures LineLength(x + t) == |x|
  {
    if x == [] {
      assert x + t == t;
    } else {
      assert (x + t)[0] == x[0] && (x + t)[1..] == x[1..] + t;
      assert !IsLineTerminator(x[0]);
      LineLengthBefore(x[1..], t);
    }
  }

  /** One step of the bullet rule at a line that starts with a bullet marker. */
  lemma BulletLinesAtBullet(s: string)
    requires BulletAt(s, true)
    ensures BulletLines(s, true) ==
      Element("li", s[ItemStart(s)..ItemEnd(s)]) + BulletLines(s[ItemEnd(s)..], IsLineTerminator(s[ItemEnd(s) - 1]))
  {
  }

  /** The item of a bullet line `- x` followed by a line end is exactly `x`. */
  lemma BulletLineBounds(x: string, t: string)
    requires x != [] && !IsWhitespace(x[0]) && NoLineTerminator(x)
    requires t == [] || IsLineTerminator(t[0])
    ensures BulletAt("- " + x + t, true)
    ensures ItemStart("- " + x + t) == 2 && ItemEnd("- " + x + t) == 2 + |x|
  {
    var s := "- " + x + t;
    assert s[0] == '-' && s[1] == ' ';
    assert ItemStart(s) == 2 by {
      var w := s[1..];
      assert w[0] == ' ' && w[1] == x[0];
      assert LeadingWhitespace(w) == 1;
    }
    assert s[2..] == x + t;
    LineLengthBefore(x, t);
  }

  /** A bullet line `- x` at a line start becomes `<li>x</li>`; matching resumes mid-line. */
  lemma BulletLine(x: string, t: string)
    requires x != [] && !IsWhitespace(x[0]) && NoLineTerminator(x)
    requires t == [] || IsLineTerminator(t[0])
    ensures BulletLines("- " + x + t, true) == Element("li", x) + BulletLines(t, false)
  {
    var s := "- " + x + t;
    BulletLineBounds(x, t);
    BulletLinesAtBullet(s);
    assert s[2..2 + |x|] == x && s[2 + |x|..] == t;
    assert !IsLineTerminator(s[2 + |x| - 1]) by {
      assert s[2 + |x| - 1] == x[|x| - 1];
    }
  }

  /** The bullet rule, run while the line ends are still there, turns every line into an item. */
  lemma {:induction false} BulletLinesOfList(xs: seq<string>)
    requires |xs| >= 1 && forall i :: 0 <= i < |xs| ==> PlainItem(xs[i])
    ensures BulletLines(Join(Bulleted(xs), "\n"), true) == Join(Items(xs), "\n")
  {
    if |xs| == 1 {
      BulletLine(xs[0], []);
      assert "- " + xs[0] + [] == "- " + xs[0];
    } else {
      var rest := Join(Bulleted(xs[1..]), "\n");
      assert Join(Bulleted(xs), "\n") == "- " + xs[0] + ("\n" + rest) by {
        assert Bulleted(xs)[1..] == Bulleted(xs[1..]);
      }
      assert BulletLines(Join(Bulleted(xs), "\n"), true) == Element("li", xs[0]) + ("\n" + BulletLines(rest, true)) by {
        BulletLine(xs[0], "\n" + rest);
        assert ("\n" + rest)[1..] == rest;
        assert BulletLines("\n" + rest, false) == "\n" + BulletLines(rest, true);
      }
      BulletLinesOfList(xs[1..]);
      assert Join(Items(xs), "\n") == Element("li", xs[0]) + "\n" + Join(Items(xs[1..]), "\n") by {
        assert Items(xs)[1..] == Items(xs[1..]);
      }
    }
  }

  lemma EmphasisOfList(xs: seq<string>)
    requires forall i :: 0 <= i < |xs| ==> PlainItem(xs[i])
    ensures Emphasis(Join(Bulleted(xs), "\n")) == Join(Bulleted(xs), "\n")
  {
    var b := Bulleted(xs);
    forall i | 0 <= i < |b| ensures '*' !in b[i] && '_' !in b[i] && '`' !in b[i] {
      BulletChars(xs[i]);
    }
    EmphasisOfLines(b);
  }

  lemma BulletChars(x: string)
    requires PlainText(x)
    ensures '*' !in "- " + x && '_' !in "- " + x && '`' !in "- " + x
    ensures '\n' !in "- " + x
  {
    NoNewline(x);
  }

  lemma EmphasisOfLines(ys: seq<string>)
    requires forall i :: 0 <= i < |ys| ==> '*' !in ys[i] && '_' !in ys[i] && '`' !in ys[i]
    ensures Emphasis(Join(ys, "\n")) == Join(ys, "\n")
  {
    JoinExcludes(ys, "\n", '*');
    JoinExcludes(ys, "\n", '_');
    JoinExcludes(ys, "\n", '`');
    EmphasisIdentity(Join(ys, "\n"));
  }

  lemma {:induction false} JoinBulleted(xs: seq<string>)
    requires |xs| >= 1
    ensures Join(Bulleted(xs), "<br>") == "- " + Join(xs, "<br>- ")
  {
    if |xs| > 1 {
      assert Bulleted(xs)[1..] == Bulleted(xs[1..]);
      JoinBulleted(xs[1..]);
      assert "<br>" + "- " == "<br>- ";
    }
  }

  lemma WrapWhole(s: string)
    requires StartsWith(s, "<li>") && EndsWith(s, "</li>")
    ensures WrapList(s) == "<ul>" + s + "</ul>"
  {
    assert s[0..4] == s[..4];
    assert InfixAt("<li>", s, 0);
    assert InfixAt("</li>", s, |s| - 5);
    assert Wrapped(s, 0, |s|) == "<ul>" + s + "</ul>";
  }

  lemma BrokenList(xs: seq<string>)
    requires |xs| >= 1 && forall i :: 0 <= i < |xs| ==> PlainItem(xs[i])
    ensures BreakLines(Emphasis(Join(Bulleted(xs), "\n"))) == "- " + Join(xs, "<br>- ")
  {
    EmphasisOfList(xs);
    forall i | 0 <= i < |xs| ensures '\n' !in Bulleted(xs)[i] {
      BulletChars(xs[i]);
    }
    BreakLinesJoin(Bulleted(xs));
    JoinBulleted(xs);
  }

  /** As written: in a list of two or more lines only the first becomes an item, because line
      ends are already `<br>` when the bullet rule runs, so `^` never holds after the first. */
  lemma ListAsWritten(xs: seq<string>)
    requires |xs| >= 1 && forall i :: 0 <= i < |xs| ==> PlainItem(xs[i])
    ensures RenderMarkdown(Join(Bulleted(xs), "\n")) == "<ul>" + Element("li", Join(xs, "<br>- ")) + "</ul>"
  {
    var body := Join(xs, "<br>- ");
    BrokenList(xs);
    ContinuationPlain();
    JoinedItemsNoLineTerminator(xs, "<br>- ");
    assert PlainItem(xs[0]);
    JoinStartsPlain(xs, "<br>- ");
    SingleBulletWrapped(body);
  }

  lemma JoinedItemsNoLineTerminator(xs: seq<string>, sep: string)
    requires NoLineTerminator(sep)
    requires forall i :: 0 <= i < |xs| ==> PlainItem(xs[i])
    ensures NoLineTerminator(Join(xs, sep))
  {
    forall i | 0 <= i < |xs| ensures NoLineTerminator(xs[i]) {
      assert PlainItem(xs[i]);
    }
    JoinNoLineTerminator(xs, sep);
  }

  /** The separator the as-written renderer leaves between items holds no line terminator. */
  lemma ContinuationPlain()
    ensures NoLineTerminator("<br>- ")
  {
    var sep := "<br>- ";
    assert forall i :: 0 <= i < |sep| ==> sep[i] in "<br>- ";
  }

  lemma JoinStartsPlain(xs: seq<string>, sep: string)
    requires |xs| >= 1 && xs[0] != [] && !IsWhitespace(xs[0][0])
    ensures Join(xs, sep) != [] && !IsWhitespace(Join(xs, sep)[0])
  {
    JoinEnds(xs, sep);
    assert Join(xs, sep)[..|xs[0]|] == xs[0];
  }

  /** A single bullet line renders as a one-item list. */
  lemma SingleBulletWrapped(y: string)
    requires y != [] && !IsWhitespace(y[0]) && NoLineTerminator(y)
    ensures WrapList(BulletLines("- " + y, true)) == "<ul>" + Element("li", y) + "</ul>"
  {
    var e := Element("li", y);
    assert BulletLines("- " + y, true) == e by {
      BulletLine(y, []);
      assert "- " + y + [] == "- " + y;
    }
    ItemEnds(y);
    WrapWhole(e);
  }

  /** Corrected: every line `- x` becomes `<li>x</li>`, the items are separated by `<br>`, and
      the whole list is wrapped in one `<ul>`. */
  lemma ListCorrected(xs: seq<string>)
    requires |xs| >= 1 && forall i :: 0 <= i < |xs| ==> PlainItem(xs[i])
    ensures RenderMarkdownCorrected(Join(Bulleted(xs), "\n")) == "<ul>" + Join(Items(xs), "<br>") + "</ul>"
  {
    ItemsBroken(xs);
    ItemsJoinedEnds(xs);
    WrapWhole(Join(Items(xs), "<br>"));
  }

  lemma ItemsBroken(xs: seq<string>)
    requires |xs| >= 1 && forall i :: 0 <= i < |xs| ==> PlainItem(xs[i])
    ensures BreakLines(BulletLines(Emphasis(Join(Bulleted(xs), "\n")), true)) == Join(Items(xs), "<br>")
  {
    EmphasisOfList(xs);
    BulletLinesOfList(xs);
    ItemsHaveNoNewline(xs);
    BreakLinesJoin(Items(xs));
  }

  lemma ItemsHaveNoNewline(xs: seq<string>)
    requires forall i :: 0 <= i < |xs| ==> PlainItem(xs[i])
    ensures forall i :: 0 <= i < |xs| ==> '\n' !in Items(xs)[i]
  {
    forall i | 0 <= i < |xs| ensures '\n' !in Items(xs)[i] {
      assert PlainItem(xs[i]);
      ElementNoLineTerminator("li", xs[i]);
      NoNewline(Items(xs)[i]);
    }
  }

  lemma ListTags()
    ensures "<" + "li" + ">" == "<li>" && "</" + "li" + ">" == "</li>"
  {
  }

  lemma ItemsJoinedEnds(xs: seq<string>)
    requires |xs| >= 1
    ensures StartsWith(Join(Items(xs), "<br>"), "<li>") && EndsWith(Join(Items(xs), "<br>"), "</li>")
  {
    ItemEnds(xs[0]);
    ItemEnds(xs[|xs| - 1]);
    JoinBetween(Items(xs), "<br>", "<li>", "</li>");
  }

  lemma ItemEnds(x: string)
    ensures StartsWith(Element("li", x), "<li>") && EndsWith(Element("li", x), "</li>")
  {
    ElementEnds("li", x);
    ListTags();
  }

  lemma JoinBetween(ys: seq<string>, sep: string, first: string, last: string)
    requires |ys| >= 1 && StartsWith(ys[0], first) && EndsWith(ys[|ys| - 1], last)
    ensures StartsWith(Join(ys, sep), first) && EndsWith(Join(ys, sep), last)
  {
    JoinEnds(ys, sep);
    StartsWithTransitive(Join(ys, sep), ys[0], first);
    EndsWithTransitive(Join(ys, sep), ys[|ys| - 1], last);
  }
}
