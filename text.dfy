/** JavaScript string primitives the extension relies on: the whitespace set of
    `String.prototype.trim` and of the regular-expression class `\s`, `trim`,
    `split(/\s+/)`, `join`, and decimal rendering of a number in a template literal. */
module Text {
  import opened Wrappers

  /** JavaScript truthiness of an optional string: `undefined`, `null` and `""` are falsy. */
  predicate Truthy(x: Option<string>) {
    x.Some? && x.value != ""
  }

  /** `x || fallback` for an optional string. */
  function OrElse(x: Option<string>, fallback: string): string {
    if Truthy(x) then x.value else fallback
  }

  /** The LineTerminator code points of ECMAScript; the regular-expression `.` never matches them. */
  predicate IsLineTerminator(c: char) {
    c == '\n' || c == '\r' || c == '\U{2028}' || c == '\U{2029}'
  }

  /** WhiteSpace or LineTerminator: what `trim` removes and what `\s` matches. */
  predicate IsWhitespace(c: char) {
    || c == '\t' || c == '\U{B}' || c == '\U{C}' || c == ' ' || c == '\U{A0}' || c == '\U{FEFF}'
    || c == '\U{1680}' || ('\U{2000}' <= c <= '\U{200A}') || c == '\U{202F}' || c == '\U{205F}'
    || c == '\U{3000}' || IsLineTerminator(c)
  }

  predicate NoWhitespace(s: string) {
    forall i :: 0 <= i < |s| ==> !IsWhitespace(s[i])
  }

  predicate NoLineTerminator(s: string) {
    forall i :: 0 <= i < |s| ==> !IsLineTerminator(s[i])
  }

  predicate StartsWith(s: string, prefix: string) {
    |prefix| <= |s| && s[..|prefix|] == prefix
  }

  predicate EndsWith(s: string, suffix: string) {
    |suffix| <= |s| && s[|s| - |suffix|..] == suffix
  }

  /** `part` occurs in `s` starting at index `i`. */
  predicate InfixAt(part: string, s: string, i: int) {
    0 <= i <= |s| - |part| && s[i..i + |part|] == part
  }

  /** `s.includes(part)`. */
  predicate IsInfix(part: string, s: string) {
    exists i :: 0 <= i <= |s| && InfixAt(part, s, i)
  }

  lemma Concat3Ends(a: string, b: string, c: string)
    ensures StartsWith(a + b + c, a) && EndsWith(a + b + c, c)
  {
    assert (a + b + c)[..|a|] == a;
    assert (a + b + c)[|a + b + c| - |c|..] == c;
  }

  lemma ConcatStartsWith(a: string, b: string)
    ensures StartsWith(a + b, a)
  {
    assert (a + b)[..|a|] == a;
  }

  lemma ConcatEndsWith(a: string, b: string)
    ensures EndsWith(a + b, b)
  {
    assert (a + b)[|a + b| - |b|..] == b;
  }

  lemma StartsWithTransitive(s: string, p: string, q: string)
    requires StartsWith(s, p) && StartsWith(p, q)
    ensures StartsWith(s, q)
  {
    assert s[..|q|] == s[..|p|][..|q|];
  }

  lemma EndsWithTransitive(s: string, p: string, q: string)
    requires EndsWith(s, p) && EndsWith(p, q)
    ensures EndsWith(s, q)
  {
    assert s[|s| - |q|..] == s[|s| - |p|..][|p| - |q|..];
  }

  lemma ConcatInfixAt(a: string, b: string, c: string)
    ensures InfixAt(b, a + b + c, |a|)
  {
    assert (a + b + c)[|a|..|a| + |b|] == b;
  }

  lemma InfixAtTransitive(x: string, y: string, z: string, i: int, j: int)
    requires InfixAt(x, y, i) && InfixAt(y, z, j)
    ensures InfixAt(x, z, i + j)
  {
    assert forall k :: 0 <= k < |y| ==> z[j + k] == y[k];
    assert forall k :: 0 <= k < |x| ==> y[i + k] == x[k];
    assert z[i + j..i + j + |x|] == x;
  }

  lemma ConcatInfix(a: string, b: string, c: string)
    ensures IsInfix(b, a + b + c)
  {
    ConcatInfixAt(a, b, c);
  }

  /** A part of a part of a concatenation is a part of the whole. */
  lemma InfixInside(pre: string, a: string, part: string, b: string, post: string)
    ensures IsInfix(part, pre + (a + part + b) + post)
  {
    assert pre + (a + part + b) + post == (pre + a) + part + (b + post);
    ConcatInfix(pre + a, part, b + post);
  }

  /** The middle of `head + mid + tail` can be cut back out by the lengths of the ends. */
  lemma ConcatMiddle(head: string, mid: string, tail: string)
    ensures var r := head + mid + tail;
      && |head| + |tail| <= |r| && r[..|head|] == head && r[|r| - |tail|..] == tail
      && r[|head|..|r| - |tail|] == mid
  {
    var r := head + mid + tail;
    assert r[..|head|] == head;
    assert r[|r| - |tail|..] == tail;
    assert r[|head|..|r| - |tail|] == mid;
  }

  lemma Infix4At(a: string, b: string, c: string, d: string)
    ensures InfixAt(b + c, a + b + c + d, |a|)
  {
    assert a + b + c + d == a + (b + c) + d;
    ConcatInfixAt(a, b + c, d);
  }

  /** No leading and no trailing whitespace. */
  predicate IsTrimmed(s: string) {
    s == [] || (!IsWhitespace(s[0]) && !IsWhitespace(s[|s| - 1]))
  }

  /** Number of whitespace characters at the front of `s`. */
  function LeadingWhitespace(s: string): (n: nat)
    ensures n <= |s|
    ensures forall i :: 0 <= i < n ==> IsWhitespace(s[i])
    ensures n == |s| || !IsWhitespace(s[n])
  {
    if s != [] && IsWhitespace(s[0]) then 1 + LeadingWhitespace(s[1..]) else 0
  }

  /** Number of whitespace characters at the end of `s`. */
  function TrailingWhitespace(s: string): (n: nat)
    ensures n <= |s|
    ensures forall i :: |s| - n <= i < |s| ==> IsWhitespace(s[i])
    ensures n == |s| || !IsWhitespace(s[|s| - 1 - n])
  {
    if s != [] && IsWhitespace(s[|s| - 1]) then 1 + TrailingWhitespace(s[..|s| - 1]) else 0
  }

  /** `r` is `s` with whitespace, and only whitespace, dropped before index `i` and after `r`. */
  predicate TrimmedFrom(s: string, r: string, i: int) {
    && InfixAt(r, s, i)
    && (forall k :: 0 <= k < i ==> IsWhitespace(s[k]))
    && (forall k :: i + |r| <= k < |s| ==> IsWhitespace(s[k]))
  }

  /** `s.trim()`. */
  function Trim(s: string): (r: string)
    ensures IsTrimmed(r)
    ensures |r| <= |s|
  {
    var front := LeadingWhitespace(s);
    if front == |s| then []
    else s[front..|s| - TrailingWhitespace(s)]
  }

  /** `trim` drops whitespace, and only whitespace, from both ends: the result is the infix of
      the input that neither starts nor ends with whitespace, and it is empty only for an
      all-whitespace input. */
  lemma TrimDropsOnlyWhitespace(s: string)
    ensures Trim(s) == [] ==> forall i :: 0 <= i < |s| ==> IsWhitespace(s[i])
    ensures exists i :: 0 <= i <= |s| && TrimmedFrom(s, Trim(s), i)
  {
    var front := LeadingWhitespace(s);
    if front == |s| {
      assert TrimmedFrom(s, [], 0);
    } else {
      var back := TrailingWhitespace(s);
      assert front < |s| - back;
      assert TrimmedFrom(s, Trim(s), front);
    }
  }

  lemma {:induction false} TrimmedIsFixpoint(s: string)
    requires IsTrimmed(s)
    ensures Trim(s) == s
  {
    if s != [] {
      assert LeadingWhitespace(s) == 0;
      assert TrailingWhitespace(s) == 0;
      assert s[0..|s|] == s;
    }
  }

  /** `trim` is idempotent. */
  lemma TrimIdempotent(s: string)
    ensures Trim(Trim(s)) == Trim(s)
  {
    TrimmedIsFixpoint(Trim(s));
  }

  /** Number of non-whitespace characters at the front of `s`. */
  function LeadingWord(s: string): (n: nat)
    ensures n <= |s|
    ensures forall i :: 0 <= i < n ==> !IsWhitespace(s[i])
    ensures n == |s| || IsWhitespace(s[n])
  {
    if s != [] && !IsWhitespace(s[0]) then 1 + LeadingWord(s[1..]) else 0
  }

  /** `s.split(/\s+/)`: every maximal run of whitespace separates two pieces, so a
      leading (trailing) run yields an empty first (last) piece and `""` yields `[""]`. */
  function SplitWhitespace(s: string): (pieces: seq<string>)
    ensures |pieces| >= 1
    decreases |s|
  {
    var w := LeadingWord(s);
    if w == |s| then [s]
    else
      var gap := s[w..];
      var skip := LeadingWhitespace(gap);
      [s[..w]] + SplitWhitespace(gap[skip..])
  }

  /** The characters of `s` that are not whitespace, in order. */
  function RemoveWhitespace(s: string): (r: string)
    ensures NoWhitespace(r)
    ensures |r| <= |s|
  {
    if s == [] then []
    else if IsWhitespace(s[0]) then RemoveWhitespace(s[1..])
    else [s[0]] + RemoveWhitespace(s[1..])
  }

  function Concat(pieces: seq<string>): string {
    if pieces == [] then [] else pieces[0] + Concat(pieces[1..])
  }

  lemma {:induction false} RemoveWhitespaceAppend(a: string, b: string)
    ensures RemoveWhitespace(a + b) == RemoveWhitespace(a) + RemoveWhitespace(b)
  {
    if a == [] {
      assert a + b == b;
    } else {
      assert (a + b)[0] == a[0];
      assert (a + b)[1..] == a[1..] + b;
      RemoveWhitespaceAppend(a[1..], b);
    }
  }

  lemma {:induction false} RemoveWhitespaceOfWord(s: string)
    requires NoWhitespace(s)
    ensures RemoveWhitespace(s) == s
  {
    if s != [] {
      RemoveWhitespaceOfWord(s[1..]);
      assert s == [s[0]] + s[1..];
    }
  }

  lemma {:induction false} RemoveWhitespaceOfGap(s: string)
    requires forall i :: 0 <= i < |s| ==> IsWhitespace(s[i])
    ensures RemoveWhitespace(s) == []
  {
    if s != [] {
      RemoveWhitespaceOfGap(s[1..]);
    }
  }

  /** The pieces of `split(/\s+/)` contain no whitespace. */
  lemma {:induction false} SplitPiecesHaveNoWhitespace(s: string)
    ensures forall k :: 0 <= k < |SplitWhitespace(s)| ==> NoWhitespace(SplitWhitespace(s)[k])
    decreases |s|
  {
    var w := LeadingWord(s);
    if w < |s| {
      var gap := s[w..];
      var rest := gap[LeadingWhitespace(gap)..];
      SplitPiecesHaveNoWhitespace(rest);
      var pieces := SplitWhitespace(s);
      assert pieces == [s[..w]] + SplitWhitespace(rest);
      forall k | 0 <= k < |pieces| ensures NoWhitespace(pieces[k]) {
        if k > 0 {
          assert pieces[k] == SplitWhitespace(rest)[k - 1];
        }
      }
    }
  }

  lemma RemoveWhitespaceAroundGap(word: string, spaces: string, rest: string)
    requires NoWhitespace(word)
    requires forall i :: 0 <= i < |spaces| ==> IsWhitespace(spaces[i])
    ensures RemoveWhitespace(word + spaces + rest) == word + RemoveWhitespace(rest)
  {
    var front := word + spaces;
    RemoveWhitespaceAppend(front, rest);
    assert RemoveWhitespace(front) == word by {
      RemoveWhitespaceAppend(word, spaces);
      RemoveWhitespaceOfWord(word);
      RemoveWhitespaceOfGap(spaces);
      assert word + [] == word;
    }
  }

  lemma ConcatCons(x: string, xs: seq<string>)
    ensures Concat([x] + xs) == x + Concat(xs)
  {
    assert ([x] + xs)[1..] == xs;
  }

  /** Together the pieces of `split(/\s+/)` hold exactly the non-whitespace characters of
      the input, in order: nothing is lost, duplicated or reordered. */
  lemma {:induction false} SplitKeepsAllNonWhitespace(s: string)
    ensures Concat(SplitWhitespace(s)) == RemoveWhitespace(s)
    decreases |s|
  {
    var w := LeadingWord(s);
    if w == |s| {
      RemoveWhitespaceOfWord(s);
      ConcatCons(s, []);
    } else {
      var gap := s[w..];
      var skip := LeadingWhitespace(gap);
      var rest := gap[skip..];
      assert s == s[..w] + gap[..skip] + rest;
      SplitKeepsAllNonWhitespace(rest);
      RemoveWhitespaceAroundGap(s[..w], gap[..skip], rest);
      ConcatCons(s[..w], SplitWhitespace(rest));
    }
  }

  /** A trimmed non-empty text splits into non-empty words only, so the piece count of
      `split(/\s+/)` is its number of words. */
  lemma {:induction false} SplitTrimmedHasNoEmptyPiece(s: string)
    requires IsTrimmed(s) && s != []
    ensures forall k :: 0 <= k < |SplitWhitespace(s)| ==> SplitWhitespace(s)[k] != []
    decreases |s|
  {
    var w := LeadingWord(s);
    if w < |s| {
      var gap := s[w..];
      var skip := LeadingWhitespace(gap);
      var rest := gap[skip..];
      assert rest[|rest| - 1] == s[|s| - 1];
      SplitTrimmedHasNoEmptyPiece(rest);
      assert SplitWhitespace(s) == [s[..w]] + SplitWhitespace(rest);
    }
  }

  /** `sep`-separated concatenation: `xs.join(sep)`. */
  function Join(xs: seq<string>, sep: string): (r: string)
    ensures |xs| == 1 ==> r == xs[0]
  {
    if xs == [] then []
    else if |xs| == 1 then xs[0]
    else xs[0] + sep + Join(xs[1..], sep)
  }

  function DigitChar(d: nat): (c: char)
    requires d < 10
  {
    "0123456789"[d]
  }

  function DigitValue(c: char): nat {
    if '0' <= c <= '9' then (c as int - '0' as int) as nat else 0
  }

  /** Decimal rendering of a non-negative integer, as `${n}` produces it. */
  function NatToString(n: nat): (r: string)
    ensures r != []
    ensures forall i :: 0 <= i < |r| ==> '0' <= r[i] <= '9'
  {
    if n < 10 then [DigitChar(n)] else NatToString(n / 10) + [DigitChar(n % 10)]
  }

  /** Reads a string of decimal digits back into a number. */
  function ParseNat(s: string): nat {
    if s == [] then 0 else 10 * ParseNat(s[..|s| - 1]) + DigitValue(s[|s| - 1])
  }

  /** Rendering a status code in decimal loses nothing: it reads back as the same number. */
  lemma {:induction false} ParseNatToString(n: nat)
    ensures ParseNat(NatToString(n)) == n
  {
    if n >= 10 {
      var s := NatToString(n);
      ParseNatToString(n / 10);
      assert s[..|s| - 1] == NatToString(n / 10);
    }
  }
}
