/**
  * The two string rewrites `GeminiVisionService` applies to the model's reply
  * before decoding it: `extractJson` (strip a Markdown code fence, keep the span
  * from the first `{` to the last `}`) and `repairJson` (drop trailing commas,
  * then append the closing brackets and braces that are missing).
  */
module JsonText {
  import opened Text

  // ---- extractJson ----

  /** `strpos($s, $c)`: the first index of `c`, or |s| when there is none. */
  function FirstIndex(s: string, c: char): (i: nat)
    ensures i <= |s|
    ensures i < |s| ==> s[i] == c
    ensures forall k :: 0 <= k < i ==> s[k] != c
  {
    if s == [] then 0
    else if s[0] == c then 0
    else
      var j := FirstIndex(s[1..], c);
      assert forall k :: 1 <= k < j + 1 ==> s[k] == s[1..][k - 1];
      j + 1
  }

  /** `strrpos($s, $c)`: the last index of `c`, or -1 when there is none. */
  function LastIndex(s: string, c: char): (i: int)
    ensures -1 <= i < |s|
    ensures i >= 0 ==> s[i] == c
    ensures forall k :: i < k < |s| ==> s[k] != c
  {
    if s == [] then -1
    else if s[|s| - 1] == c then |s| - 1
    else LastIndex(s[..|s| - 1], c)
  }

  predicate IsAsciiLetter(c: char) {
    ('a' <= c <= 'z') || ('A' <= c <= 'Z')
  }

  /** Length of the leading run of ASCII letters (`[a-zA-Z]*`, greedy). */
  function LetterRun(s: string): (n: nat)
    ensures n <= |s|
    ensures forall k :: 0 <= k < n ==> IsAsciiLetter(s[k])
    ensures n == |s| || !IsAsciiLetter(s[n])
  {
    if s != [] && IsAsciiLetter(s[0]) then
      var n := LetterRun(s[1..]);
      assert forall k :: 1 <= k < n + 1 ==> s[k] == s[1..][k - 1];
      n + 1
    else 0
  }

  /**
    * `preg_replace('/^```[a-zA-Z]*\n/', '', $t)`: the letters must be followed
    * by a newline for the opening fence (and its language tag) to go.
    */
  function DropOpeningFence(t: string): string
  {
    if StartsWith(t, "```") then
      var n := LetterRun(t[3..]);
      if 3 + n < |t| && t[3 + n] == '\n' then t[3 + n + 1..] else t
    else t
  }

  /**
    * `preg_replace('/\n```$/', '', $t)`. The text here never ends in a newline
    * (it was trimmed), so `$` only matches at the very end.
    */
  function DropClosingFence(t: string): string
  {
    if |t| >= 4 && t[|t| - 4..] == "\n```" then t[..|t| - 4] else t
  }

  /** The trimmed reply with an enclosing Markdown code fence removed. */
  function Unfenced(text: string): string {
    var t := Trim(text, PhpTrim);
    if StartsWith(t, "```") then Trim(DropClosingFence(DropOpeningFence(t)), PhpTrim) else t
  }

  /** There is a `{` somewhere before a `}`. */
  predicate HasBraceSpan(t: string) {
    exists i, j :: 0 <= i < j < |t| && t[i] == '{' && t[j] == '}'
  }

  /** `t[s]` is the first `{` of `t`, `t[e]` its last `}`, and the first comes before the last. */
  predicate OuterBraces(t: string, s: int, e: int) {
    0 <= s < e < |t| && t[s] == '{' && t[e] == '}'
    && (forall k :: 0 <= k < s ==> t[k] != '{')
    && (forall k :: e < k < |t| ==> t[k] != '}')
  }

  /** `r` is the span of `t` from its first `{` (`strpos`) to its last `}` (`strrpos`). */
  predicate Spans(t: string, r: string) {
    var s := FirstIndex(t, '{');
    var e := LastIndex(t, '}');
    OuterBraces(t, s, e) && r == t[s..e + 1]
  }

  /**
    * The part of `extractJson` after unfencing: the span from the first `{` to
    * the last `}` when the first comes before the last, otherwise the text itself.
    */
  function BraceSpan(t: string): (r: string)
    ensures HasBraceSpan(t) ==> Spans(t, r)
    ensures !HasBraceSpan(t) ==> r == t
  {
    var start := FirstIndex(t, '{');
    var end := LastIndex(t, '}');
    if start < |t| && end >= 0 && end > start then
      SpanTrimmed(t, start, end);
      Trim(t[start..end + 1], PhpTrim)
    else
      NoSpan(t);
      t
  }

  /** The span between a `{` and a later `}` has nothing for `trim` to remove. */
  lemma SpanTrimmed(t: string, start: nat, end: nat)
    requires start < end < |t| && t[start] == '{' && t[end] == '}'
    ensures Trim(t[start..end + 1], PhpTrim) == t[start..end + 1]
  {
    var candidate := t[start..end + 1];
    assert candidate[0] == '{' && candidate[|candidate| - 1] == '}';
    TrimNoop(candidate, PhpTrim);
  }

  /** When the first `{` does not come before the last `}`, no `{` comes before any `}`. */
  lemma NoSpan(t: string)
    requires var start := FirstIndex(t, '{'); var end := LastIndex(t, '}');
      !(start < |t| && end >= 0 && end > start)
    ensures !HasBraceSpan(t)
  {
    var start := FirstIndex(t, '{');
    var end := LastIndex(t, '}');
    forall i, j | 0 <= i < j < |t| && t[i] == '{' ensures t[j] != '}' {
      assert start <= i < |t|;
      assert end < j;
    }
  }

  /**
    * `extractJson`: when the unfenced text has a `{` before a later `}`, the
    * result is exactly the span from the first `{` to the last `}`; otherwise the
    * unfenced text itself.
    */
  function ExtractJson(text: string): (r: string)
    ensures HasBraceSpan(Unfenced(text)) ==> Spans(Unfenced(text), r)
    ensures !HasBraceSpan(Unfenced(text)) ==> r == Unfenced(text)
  {
    BraceSpan(Unfenced(text))
  }

  /** A text that already is one brace span comes back unchanged. */
  lemma ExtractSpanFixpoint(r: string)
    requires |r| >= 2 && r[0] == '{' && r[|r| - 1] == '}'
    ensures ExtractJson(r) == r
  {
    TrimNoop(r, PhpTrim);
    assert !StartsWith(r, "```") by {
      assert r[0] != '`';
    }
    assert Unfenced(r) == r;
    assert FirstIndex(r, '{') == 0;
    assert LastIndex(r, '}') == |r| - 1;
    assert r[0..|r|] == r;
  }

  /** A found brace span starts with `{` and ends with `}`. */
  lemma ExtractedSpan(text: string)
    requires HasBraceSpan(Unfenced(text))
    ensures var r := ExtractJson(text); |r| >= 2 && r[0] == '{' && r[|r| - 1] == '}'
  {
    SpanEnds(Unfenced(text), ExtractJson(text));
  }

  lemma SpanEnds(t: string, r: string)
    requires Spans(t, r)
    ensures |r| >= 2 && r[0] == '{' && r[|r| - 1] == '}'
  {
  }

  /** Extracting twice gives what extracting once gives, when a brace span was found. */
  lemma ExtractJsonIdempotent(text: string)
    requires HasBraceSpan(Unfenced(text))
    ensures ExtractJson(ExtractJson(text)) == ExtractJson(text)
  {
    ExtractedSpan(text);
    ExtractSpanFixpoint(ExtractJson(text));
  }

  // ---- repairJson ----

  predicate IsCloser(c: char) { c == '}' || c == ']' }

  /**
    * `preg_replace('/,\s*([}\]])/', '$1', $s)`: scanning left to right, a comma
    * followed by optional whitespace and a closing bracket or brace is replaced by
    * that closer, and the scan resumes after it.
    */
  function StripTrailingCommas(s: string): (r: string)
    ensures |r| <= |s|
    decreases |s|
  {
    if s == [] then []
    else if s[0] == ',' && DropSpaces(s[1..]) != [] && IsCloser(DropSpaces(s[1..])[0]) then
      var rest := DropSpaces(s[1..]);
      [rest[0]] + StripTrailingCommas(rest[1..])
    else [s[0]] + StripTrailingCommas(s[1..])
  }

  /** A comma at `i` that the pattern matches: after optional whitespace comes `}` or `]`. */
  predicate TrailingCommaAt(s: string, i: int) {
    0 <= i < |s| && s[i] == ',' && DropSpaces(s[i + 1..]) != [] && IsCloser(DropSpaces(s[i + 1..])[0])
  }

  predicate HasTrailingComma(s: string) {
    exists i :: 0 <= i < |s| && TrailingCommaAt(s, i)
  }

  /** A comma, whitespace and a closer become that closer. */
  lemma StripMatch(w: string, c: char, t: string)
    requires AllSpace(w, RegexSpace) && IsCloser(c)
    ensures StripTrailingCommas([','] + w + [c] + t) == [c] + StripTrailingCommas(t)
  {
    var s := [','] + w + [c] + t;
    assert s[1..] == w + ([c] + t);
    DropSpacesOver(w, [c] + t);
  }

  /**
    * The scan never reads across a point followed by something that is neither
    * whitespace nor a closer, so the text may be split there.
    */
  lemma {:induction false} StripAppend(a: string, b: string)
    requires b == [] || (!IsSpace(b[0], RegexSpace) && !IsCloser(b[0]))
    ensures StripTrailingCommas(a + b) == StripTrailingCommas(a) + StripTrailingCommas(b)
    decreases |a|
  {
    if a == [] {
      assert a + b == b;
    } else if TrailingCommaAt(a, 0) {
      var rest := DropSpaces(a[1..]);
      HitAppend(a, b);
      StripHit(a);
      StripHit(a + b);
      StripAppend(rest[1..], b);
      AppendAssoc([rest[0]], StripTrailingCommas(rest[1..]), StripTrailingCommas(b));
    } else {
      MissAppend(a, b);
      StripMiss(a);
      StripMiss(a + b);
      StripAppend(a[1..], b);
      AppendAssoc([a[0]], StripTrailingCommas(a[1..]), StripTrailingCommas(b));
    }
  }

  /** The scan step at a trailing comma. */
  lemma StripHit(s: string)
    requires TrailingCommaAt(s, 0)
    ensures StripTrailingCommas(s) == [DropSpaces(s[1..])[0]] + StripTrailingCommas(DropSpaces(s[1..])[1..])
  {
  }

  /** The scan step anywhere else. */
  lemma StripMiss(s: string)
    requires s != [] && !TrailingCommaAt(s, 0)
    ensures StripTrailingCommas(s) == [s[0]] + StripTrailingCommas(s[1..])
  {
  }

  /** A trailing comma at the start stays one when more text follows, and the same whitespace is skipped. */
  lemma HitAppend(a: string, b: string)
    requires TrailingCommaAt(a, 0)
    ensures TrailingCommaAt(a + b, 0)
    ensures (a + b)[1..] == a[1..] + b
    ensures DropSpaces((a + b)[1..])[0] == DropSpaces(a[1..])[0]
    ensures DropSpaces((a + b)[1..])[1..] == DropSpaces(a[1..])[1..] + b
  {
    AppendTail(a, b);
    DropSpacesAppend(a[1..], b);
    AppendTail(DropSpaces(a[1..]), b);
  }

  /** A start that is not a trailing comma stays one when the text goes on with neither whitespace nor a closer. */
  lemma MissAppend(a: string, b: string)
    requires a != [] && !TrailingCommaAt(a, 0)
    requires b == [] || (!IsSpace(b[0], RegexSpace) && !IsCloser(b[0]))
    ensures !TrailingCommaAt(a + b, 0) && (a + b)[0] == a[0] && (a + b)[1..] == a[1..] + b
  {
    AppendTail(a, b);
    DropSpacesAppend(a[1..], b);
    if DropSpaces(a[1..]) == [] {
      assert DropSpaces(b) == b;
    }
  }

  /** Whitespace followed by a non-space is dropped up to that non-space. */
  lemma {:induction false} DropSpacesOver(w: string, x: string)
    requires AllSpace(w, RegexSpace) && x != [] && !IsSpace(x[0], RegexSpace)
    ensures DropSpaces(w + x) == x
  {
    if w == [] {
      assert w + x == x;
    } else {
      assert (w + x)[1..] == w[1..] + x;
      DropSpacesOver(w[1..], x);
    }
  }

  /** Dropping the whitespace of a concatenation. */
  lemma {:induction false} DropSpacesAppend(x: string, b: string)
    ensures DropSpaces(x) != [] ==> DropSpaces(x + b) == DropSpaces(x) + b
    ensures DropSpaces(x) == [] ==> DropSpaces(x + b) == DropSpaces(b)
  {
    if x == [] {
      assert x + b == b;
    } else if IsSpace(x[0], RegexSpace) {
      AppendTail(x, b);
      DropSpacesAppend(x[1..], b);
    }
  }

  /** The pass changes the text exactly when some comma is a trailing comma. */
  lemma StripUnchangedIff(s: string)
    ensures StripTrailingCommas(s) == s <==> !HasTrailingComma(s)
  {
    if HasTrailingComma(s) {
      var i :| TrailingCommaAt(s, i);
      StripShorter(s, i);
    } else {
      StripNone(s);
    }
  }

  lemma {:induction false} StripShorter(s: string, i: int)
    requires TrailingCommaAt(s, i)
    ensures |StripTrailingCommas(s)| < |s|
    decreases |s|
  {
    if !(s[0] == ',' && DropSpaces(s[1..]) != [] && IsCloser(DropSpaces(s[1..])[0])) {
      assert i > 0;
      assert s[1..][i..] == s[i + 1..];
      StripShorter(s[1..], i - 1);
    }
  }

  lemma {:induction false} StripNone(s: string)
    requires !HasTrailingComma(s)
    ensures StripTrailingCommas(s) == s
    decreases |s|
  {
    if s != [] {
      assert !TrailingCommaAt(s, 0);
      if HasTrailingComma(s[1..]) {
        var i :| 0 <= i < |s[1..]| && TrailingCommaAt(s[1..], i);
        TrailingShift(s, i);
        assert false;
      }
      StripNone(s[1..]);
    }
  }

  /** A trailing comma of the tail is one of the whole text. */
  lemma TrailingShift(s: string, i: int)
    requires s != [] && TrailingCommaAt(s[1..], i)
    ensures TrailingCommaAt(s, i + 1)
  {
    assert s[1..][i + 1..] == s[i + 2..];
  }

  /** One pass only: a comma that a stripped comma uncovers stays. */
  lemma StripSinglePass(c: char)
    requires IsCloser(c)
    ensures StripTrailingCommas([','] + [',', c]) == [',', c]
    ensures HasTrailingComma([',', c])
  {
    StripTwoCommas(c);
    LeftoverComma(c);
  }

  lemma StripTwoCommas(c: char)
    requires IsCloser(c)
    ensures StripTrailingCommas([','] + [',', c]) == [',', c]
  {
    StripCloserAfterComma(c);
    CommaBeforeComma(c);
    StripConsMiss(',', [',', c]);
  }

  lemma StripCloserAfterComma(c: char)
    requires IsCloser(c)
    ensures StripTrailingCommas([',', c]) == [c]
  {
    StripMatch([], c, []);
    assert [','] + [] + [c] + [] == [',', c];
  }

  lemma CommaBeforeComma(c: char)
    ensures !TrailingCommaAt([','] + [',', c], 0)
  {
    assert ([','] + [',', c])[1..] == [',', c];
    assert DropSpaces([',', c]) == [',', c];
  }

  lemma StripConsMiss(x: char, t: string)
    requires !TrailingCommaAt([x] + t, 0)
    ensures StripTrailingCommas([x] + t) == [x] + StripTrailingCommas(t)
  {
    StripMiss([x] + t);
    assert ([x] + t)[1..] == t;
  }

  lemma LeftoverComma(c: char)
    requires IsCloser(c)
    ensures HasTrailingComma([',', c])
  {
    var t := [',', c];
    assert t[1..] == [c];
    assert DropSpaces([c]) == [c];
    assert TrailingCommaAt(t, 0);
  }

  /** The characters that survive comma stripping untouched: neither commas nor whitespace. */
  function Solid(s: string): (r: string)
    ensures |r| <= |s|
  {
    if s == [] then []
    else if s[0] == ',' || IsSpace(s[0], RegexSpace) then Solid(s[1..])
    else [s[0]] + Solid(s[1..])
  }

  lemma {:induction false} SolidAppend(a: string, b: string)
    ensures Solid(a + b) == Solid(a) + Solid(b)
  {
    if a != [] {
      assert (a + b)[1..] == a[1..] + b;
      SolidAppend(a[1..], b);
    } else {
      assert a + b == b;
    }
  }

  lemma {:induction false} SolidOfSpaces(s: string)
    requires AllSpace(s, RegexSpace)
    ensures Solid(s) == []
  {
    if s != [] {
      SolidOfSpaces(s[1..]);
    }
  }

  /**
    * Comma stripping deletes only commas and whitespace: every other character
    * is kept, in order.
    */
  lemma {:induction false} StripKeepsSolid(s: string)
    ensures Solid(StripTrailingCommas(s)) == Solid(s)
    decreases |s|
  {
    if s == [] {
    } else if s[0] == ',' && DropSpaces(s[1..]) != [] && IsCloser(DropSpaces(s[1..])[0]) {
      var rest := DropSpaces(s[1..]);
      var w := s[1..][..|s[1..]| - |rest|];
      assert s[1..] == w + rest;
      assert AllSpace(w, RegexSpace) by {
        DropSpacesSkipped(s[1..]);
      }
      SolidOfSpaces(w);
      SolidAppend(w, rest);
      StripKeepsSolid(rest[1..]);
      assert rest == [rest[0]] + rest[1..];
      SolidAppend([rest[0]], rest[1..]);
      SolidAppend([rest[0]], StripTrailingCommas(rest[1..]));
    } else {
      StripKeepsSolid(s[1..]);
    }
  }

  lemma {:induction false} DropSpacesSkipped(s: string)
    ensures AllSpace(s[..|s| - |DropSpaces(s)|], RegexSpace)
  {
    if s != [] && IsSpace(s[0], RegexSpace) {
      DropSpacesSkipped(s[1..]);
      var n := |s| - |DropSpaces(s)|;
      forall k | 0 <= k < n ensures IsSpace(s[k], RegexSpace) {
        if k > 0 {
          assert s[k] == s[1..][..|s[1..]| - |DropSpaces(s[1..])|][k - 1];
        }
      }
    }
  }

  /** Characters other than commas and whitespace are counted alike before and after `Solid`. */
  lemma {:induction false} CountSolid(s: string, c: char)
    requires c != ',' && !IsSpace(c, RegexSpace)
    ensures Count(Solid(s), c) == Count(s, c)
  {
    if s != [] {
      CountSolid(s[1..], c);
      if !(s[0] == ',' || IsSpace(s[0], RegexSpace)) {
        CountAppend([s[0]], Solid(s[1..]), c);
      }
    }
  }

  /** Comma stripping keeps the number of each bracket and brace. */
  lemma StripKeepsBrackets(s: string, c: char)
    requires c in "{}[]"
    ensures Count(StripTrailingCommas(s), c) == Count(s, c)
  {
    StripKeepsSolid(s);
    CountSolid(s, c);
    CountSolid(StripTrailingCommas(s), c);
  }

  function Deficit(opens: nat, closes: nat): nat {
    if closes < opens then opens - closes else 0
  }

  /**
    * Appends the missing `]`s and then the missing `}`s. The text is a prefix of
    * the result, only closers are appended, and afterwards no bracket or brace
    * kind has more openers than closers.
    */
  function CloseBrackets(u: string): (r: string)
    ensures |u| <= |r| && r[..|u|] == u
    ensures r[|u|..] == Repeat(']', Deficit(Count(u, '['), Count(u, ']'))) + Repeat('}', Deficit(Count(u, '{'), Count(u, '}')))
    ensures forall k :: |u| <= k < |r| ==> IsCloser(r[k])
    ensures Count(r, '[') == Count(u, '[') && Count(r, '{') == Count(u, '{')
    ensures Count(r, ']') == Count(u, ']') + Deficit(Count(u, '['), Count(u, ']'))
    ensures Count(r, '}') == Count(u, '}') + Deficit(Count(u, '{'), Count(u, '}'))
    ensures Count(r, ']') >= Count(r, '[') && Count(r, '}') >= Count(r, '{')
  {
    var tail := Repeat(']', Deficit(Count(u, '['), Count(u, ']'))) + Repeat('}', Deficit(Count(u, '{'), Count(u, '}')));
    var r := u + tail;
    assert r[..|u|] == u && r[|u|..] == tail;
    assert u + Repeat(']', Deficit(Count(u, '['), Count(u, ']'))) + Repeat('}', Deficit(Count(u, '{'), Count(u, '}'))) == r;
    ClosersCounted(u);
    r
  }

  /** How many of each bracket and brace the appended closers add. */
  lemma ClosersCounted(u: string)
    ensures var squares := Repeat(']', Deficit(Count(u, '['), Count(u, ']')));
      var curlies := Repeat('}', Deficit(Count(u, '{'), Count(u, '}')));
      var r := u + squares + curlies;
      && Count(r, '[') == Count(u, '[') && Count(r, '{') == Count(u, '{')
      && Count(r, ']') == Count(u, ']') + |squares|
      && Count(r, '}') == Count(u, '}') + |curlies|
  {
    var squares := Repeat(']', Deficit(Count(u, '['), Count(u, ']')));
    var curlies := Repeat('}', Deficit(Count(u, '{'), Count(u, '}')));
    var r := u + squares + curlies;
    forall c | c in "{}[]" ensures Count(r, c) == Count(u, c) + Count(squares, c) + Count(curlies, c) {
      CountAppend(u + squares, curlies, c);
      CountAppend(u, squares, c);
    }
    CountRepeat(']', '[', |squares|); CountRepeat(']', '{', |squares|);
    CountRepeat(']', ']', |squares|); CountRepeat(']', '}', |squares|);
    CountRepeat('}', '[', |curlies|); CountRepeat('}', '{', |curlies|);
    CountRepeat('}', ']', |curlies|); CountRepeat('}', '}', |curlies|);
  }

  /**
    * `repairJson`: trim, strip trailing commas, then close what is still open.
    * The stripped text is a prefix of the result and afterwards no bracket or
    * brace kind has more openers than closers.
    */
  function RepairJson(json: string): (r: string)
    ensures var t := Trim(json, PhpTrim);
      var u := StripTrailingCommas(t);
      && Solid(u) == Solid(t)
      && (u == t <==> !HasTrailingComma(t))
      && |u| <= |r| && r[..|u|] == u
      && r[|u|..] == Repeat(']', Deficit(Count(u, '['), Count(u, ']'))) + Repeat('}', Deficit(Count(u, '{'), Count(u, '}')))
      && Count(r, ']') >= Count(r, '[') && Count(r, '}') >= Count(r, '{')
  {
    var t := Trim(json, PhpTrim);
    StripKeepsSolid(t);
    StripUnchangedIff(t);
    CloseBrackets(StripTrailingCommas(t))
  }

  /** Text whose brackets and braces are already closed only loses its trailing commas. */
  lemma RepairBalanced(json: string)
    requires var u := StripTrailingCommas(Trim(json, PhpTrim));
      Count(u, ']') >= Count(u, '[') && Count(u, '}') >= Count(u, '{')
    ensures RepairJson(json) == StripTrailingCommas(Trim(json, PhpTrim))
  {
  }
}
