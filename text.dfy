/**
  * String primitives shared by the PHP back end and the JavaScript front end:
  * the three whitespace classes they use, trimming, ASCII case mapping,
  * substring search, character counting, `preg_replace('/\s+/', ' ', ...)`,
  * `explode` and decimal rendering of integers.
  */
module Text {

  /** The three notions of "whitespace" the source relies on. */
  datatype Charset =
    | PhpTrim     // PHP trim(): " \t\n\r\0\x0B"
    | RegexSpace  // PCRE \s without the u flag: " \t\n\x0B\f\r"
    | JsSpace     // ECMAScript WhiteSpace and LineTerminator (String.prototype.trim, /\s/)

  predicate IsSpace(c: char, cs: Charset) {
    match cs
    case PhpTrim => c == ' ' || c == '\t' || c == '\n' || c == '\r' || c == '\0' || c == '\U{000B}'
    case RegexSpace => c == ' ' || c == '\t' || c == '\n' || c == '\U{000B}' || c == '\U{000C}' || c == '\r'
    case JsSpace =>
      c == ' ' || c == '\t' || c == '\n' || c == '\U{000B}' || c == '\U{000C}' || c == '\r'
      || c == '\U{00A0}' || c == '\U{1680}' || ('\U{2000}' <= c <= '\U{200A}')
      || c == '\U{2028}' || c == '\U{2029}' || c == '\U{202F}' || c == '\U{205F}'
      || c == '\U{3000}' || c == '\U{FEFF}'
  }

  predicate AllSpace(s: string, cs: Charset) {
    forall i :: 0 <= i < |s| ==> IsSpace(s[i], cs)
  }

  /** PHP `trim($s)` (cs = PhpTrim) or JavaScript `s.trim()` (cs = JsSpace): drops the whitespace at both ends. */
  function Trim(s: string, cs: Charset): (r: string)
    ensures |r| <= |s|
    ensures r == [] || (!IsSpace(r[0], cs) && !IsSpace(r[|r| - 1], cs))
    decreases |s|
  {
    if s == [] then []
    else if IsSpace(s[0], cs) then Trim(s[1..], cs)
    else if IsSpace(s[|s| - 1], cs) then Trim(s[..|s| - 1], cs)
    else s
  }

  /** What trimming removes: a run of whitespace at each end, and nothing else. */
  lemma {:induction false} TrimSlice(s: string, cs: Charset) returns (i: nat, j: nat)
    ensures i <= j <= |s| && Trim(s, cs) == s[i..j]
    ensures AllSpace(s[..i], cs) && AllSpace(s[j..], cs)
    decreases |s|
  {
    if s == [] {
      i, j := 0, 0;
    } else if IsSpace(s[0], cs) {
      var i', j' := TrimSlice(s[1..], cs);
      i, j := SliceFront(s, cs, i', j');
    } else if IsSpace(s[|s| - 1], cs) {
      i, j := TrimSlice(s[..|s| - 1], cs);
      SliceBack(s, cs, i, j);
    } else {
      i, j := 0, |s|;
    }
  }

  lemma SliceFront(s: string, cs: Charset, i': nat, j': nat) returns (i: nat, j: nat)
    requires s != [] && IsSpace(s[0], cs)
    requires i' <= j' <= |s| - 1 && Trim(s[1..], cs) == s[1..][i'..j']
    requires AllSpace(s[1..][..i'], cs) && AllSpace(s[1..][j'..], cs)
    ensures i <= j <= |s| && Trim(s, cs) == s[i..j]
    ensures AllSpace(s[..i], cs) && AllSpace(s[j..], cs)
  {
    var t := s[1..];
    i, j := i' + 1, j' + 1;
    assert t[i'..j'] == s[i..j];
    assert s[j..] == t[j'..];
    assert s[..i] == [s[0]] + t[..i'];
  }

  lemma SliceBack(s: string, cs: Charset, i: nat, j: nat)
    requires s != [] && IsSpace(s[|s| - 1], cs)
    requires i <= j <= |s| - 1
    requires AllSpace(s[..|s| - 1][..i], cs) && AllSpace(s[..|s| - 1][j..], cs)
    ensures s[..|s| - 1][i..j] == s[i..j]
    ensures AllSpace(s[..i], cs) && AllSpace(s[j..], cs)
  {
    var t := s[..|s| - 1];
    assert s[..i] == t[..i];
    forall k | 0 <= k < |s| - j ensures IsSpace(s[j..][k], cs) {
      if k < |t| - j {
        assert s[j..][k] == t[j..][k];
      }
    }
  }

  /** Trimming changes nothing when both ends are already non-space. */
  lemma TrimNoop(s: string, cs: Charset)
    requires s == [] || (!IsSpace(s[0], cs) && !IsSpace(s[|s| - 1], cs))
    ensures Trim(s, cs) == s
  {
  }

  /** Trim is idempotent. */
  lemma TrimIdempotent(s: string, cs: Charset)
    ensures Trim(Trim(s, cs), cs) == Trim(s, cs)
  {
    TrimNoop(Trim(s, cs), cs);
  }

  /** A string is blank when trimming leaves nothing, i.e. it is all whitespace. */
  lemma {:induction false} TrimEmptyIffAllSpace(s: string, cs: Charset)
    ensures Trim(s, cs) == [] <==> AllSpace(s, cs)
    decreases |s|
  {
    if s == [] {
    } else if IsSpace(s[0], cs) {
      TrimEmptyIffAllSpace(s[1..], cs);
      assert AllSpace(s, cs) <==> AllSpace(s[1..], cs) by {
        assert forall k :: 1 <= k < |s| ==> s[k] == s[1..][k - 1];
      }
    } else {
      assert !AllSpace(s, cs);
      var i, j := TrimSlice(s, cs);
      assert i == 0;
    }
  }

  // ---- ASCII case mapping (mb_strtolower / toLowerCase restricted to A-Z) ----

  function LowerChar(c: char): (d: char)
    ensures 'A' <= c <= 'Z' ==> 'a' <= d <= 'z'
    ensures !('A' <= c <= 'Z') ==> d == c
  {
    if 'A' <= c <= 'Z' then (c as int + 32) as char else c
  }

  function UpperChar(c: char): (d: char)
    ensures 'a' <= c <= 'z' ==> 'A' <= d <= 'Z'
    ensures !('a' <= c <= 'z') ==> d == c
  {
    if 'a' <= c <= 'z' then (c as int - 32) as char else c
  }

  function Lower(s: string): (r: string)
    ensures |r| == |s| && forall i :: 0 <= i < |s| ==> r[i] == LowerChar(s[i])
  {
    seq(|s|, i requires 0 <= i < |s| => LowerChar(s[i]))
  }

  lemma LowerIdempotent(s: string)
    ensures Lower(Lower(s)) == Lower(s)
  {
  }

  /** Case mapping never turns a whitespace character into a non-whitespace one or back. */
  lemma LowerKeepsSpace(c: char, cs: Charset)
    ensures IsSpace(LowerChar(c), cs) <==> IsSpace(c, cs)
    ensures IsSpace(UpperChar(c), cs) <==> IsSpace(c, cs)
  {
  }

  /** Lower-casing and trimming commute: case mapping keeps whitespace as it is. */
  lemma {:induction false} TrimLower(s: string, cs: Charset)
    ensures Lower(Trim(s, cs)) == Trim(Lower(s), cs)
    decreases |s|
  {
    if s != [] {
      var l := Lower(s);
      LowerKeepsSpace(s[0], cs);
      LowerKeepsSpace(s[|s| - 1], cs);
      if IsSpace(s[0], cs) {
        assert Lower(s[1..]) == l[1..];
        TrimLower(s[1..], cs);
      } else if IsSpace(s[|s| - 1], cs) {
        assert Lower(s[..|s| - 1]) == l[..|l| - 1];
        TrimLower(s[..|s| - 1], cs);
      }
    }
  }

  // ---- searching and counting ----

  predicate StartsWith(s: string, p: string) {
    |p| <= |s| && s[..|p|] == p
  }

  /** PHP `str_contains($s, $p)` / JavaScript `s.includes(p)`. */
  predicate Contains(s: string, p: string)
    decreases |s|
  {
    StartsWith(s, p) || (s != [] && Contains(s[1..], p))
  }

  lemma {:induction false} ContainsAt(s: string, p: string, i: nat)
    requires i + |p| <= |s| && s[i..i + |p|] == p
    ensures Contains(s, p)
    decreases i
  {
    if i > 0 {
      assert s[1..][i - 1..i - 1 + |p|] == s[i..i + |p|];
      ContainsAt(s[1..], p, i - 1);
    }
  }

  lemma {:induction false} ContainsWitness(s: string, p: string) returns (i: nat)
    requires Contains(s, p)
    ensures i + |p| <= |s| && s[i..i + |p|] == p
    decreases |s|
  {
    if StartsWith(s, p) {
      i := 0;
    } else {
      var j := ContainsWitness(s[1..], p);
      i := j + 1;
      assert s[1..][j..j + |p|] == s[i..i + |p|];
    }
  }

  /** PHP `substr_count($s, $c)` for a one-character needle. */
  function Count(s: string, c: char): (n: nat)
    ensures n <= |s|
    ensures n == 0 <==> c !in s
  {
    if s == [] then 0 else (if s[0] == c then 1 else 0) + Count(s[1..], c)
  }

  lemma {:induction false} CountAppend(a: string, b: string, c: char)
    ensures Count(a + b, c) == Count(a, c) + Count(b, c)
  {
    if a != [] {
      assert (a + b)[1..] == a[1..] + b;
      CountAppend(a[1..], b, c);
    } else {
      assert a + b == b;
    }
  }

  function Repeat(c: char, n: nat): (r: string)
    ensures |r| == n && forall i :: 0 <= i < n ==> r[i] == c
  {
    seq(n, _ => c)
  }

  lemma {:induction false} CountRepeat(c: char, d: char, n: nat)
    ensures Count(Repeat(c, n), d) == if c == d then n else 0
  {
    if n > 0 {
      assert Repeat(c, n)[1..] == Repeat(c, n - 1);
      CountRepeat(c, d, n - 1);
    }
  }

  // ---- preg_replace('/\s+/', ' ', $s) ----

  /** Drops a leading run of PCRE `\s` characters. */
  function DropSpaces(s: string): (r: string)
    ensures |r| <= |s| && r == s[|s| - |r|..]
    ensures r == [] || !IsSpace(r[0], RegexSpace)
  {
    if s != [] && IsSpace(s[0], RegexSpace) then DropSpaces(s[1..]) else s
  }

  lemma {:induction false} DropSpacesEmpty(s: string)
    requires DropSpaces(s) == []
    ensures AllSpace(s, RegexSpace)
  {
    if s != [] {
      assert IsSpace(s[0], RegexSpace);
      DropSpacesEmpty(s[1..]);
      forall i | 0 <= i < |s| ensures IsSpace(s[i], RegexSpace) {
        if i > 0 {
          assert s[i] == s[1..][i - 1];
        }
      }
    }
  }

  /** Replaces every maximal run of PCRE `\s` characters by one space. */
  function CollapseSpaces(s: string): (r: string)
    ensures |r| <= |s|
    decreases |s|
  {
    if s == [] then []
    else if IsSpace(s[0], RegexSpace) then " " + CollapseSpaces(DropSpaces(s[1..]))
    else [s[0]] + CollapseSpaces(s[1..])
  }

  /** After collapsing, no two spaces are adjacent and no other `\s` character remains. */
  lemma {:induction false} CollapseSpacesShape(s: string)
    ensures forall i :: 0 <= i < |CollapseSpaces(s)| && IsSpace(CollapseSpaces(s)[i], RegexSpace) ==> CollapseSpaces(s)[i] == ' '
    ensures forall i :: 0 <= i < |CollapseSpaces(s)| - 1 ==> !(CollapseSpaces(s)[i] == ' ' && CollapseSpaces(s)[i + 1] == ' ')
    decreases |s|
  {
    if s == [] {
    } else if IsSpace(s[0], RegexSpace) {
      var t := DropSpaces(s[1..]);
      CollapseSpacesShape(t);
      CollapseHead(t);
    } else {
      CollapseSpacesShape(s[1..]);
    }
  }

  /** Collapsing keeps the first character of a string that does not start with whitespace. */
  lemma {:induction false} CollapseHead(s: string)
    ensures s == [] <==> CollapseSpaces(s) == []
    ensures s != [] && !IsSpace(s[0], RegexSpace) ==> CollapseSpaces(s)[0] == s[0]
    ensures s != [] && IsSpace(s[0], RegexSpace) ==> CollapseSpaces(s)[0] == ' '
  {
  }

  /** Collapsing is idempotent. */
  lemma {:induction false} CollapseIdempotent(s: string)
    ensures CollapseSpaces(CollapseSpaces(s)) == CollapseSpaces(s)
    decreases |s|
  {
    if s == [] {
    } else if IsSpace(s[0], RegexSpace) {
      var t := DropSpaces(s[1..]);
      var ct := CollapseSpaces(t);
      CollapseIdempotent(t);
      CollapseHead(t);
      assert (" " + ct)[1..] == ct;
      assert DropSpaces(ct) == ct;
    } else {
      CollapseIdempotent(s[1..]);
      assert ([s[0]] + CollapseSpaces(s[1..]))[1..] == CollapseSpaces(s[1..]);
    }
  }

  /** Collapsing works piecewise across a seam that is not inside a whitespace run. */
  lemma {:induction false} CollapseAppend(a: string, r: string)
    requires a == [] || !IsSpace(a[|a| - 1], RegexSpace)
    ensures CollapseSpaces(a + r) == CollapseSpaces(a) + CollapseSpaces(r)
    decreases |a|
  {
    if a == [] {
      assert a + r == r;
    } else if IsSpace(a[0], RegexSpace) {
      var t := DropSpaces(a[1..]);
      assert |a| >= 2;
      assert a[1..][|a| - 2] == a[|a| - 1];
      assert t != [] by {
        if t == [] {
          DropSpacesEmpty(a[1..]);
        }
      }
      assert t[|t| - 1] == a[|a| - 1];
      DropSpacesPrefix(a[1..], r);
      CollapseAppend(t, r);
      SpaceSeam(a, r, t);
    } else {
      assert a[1..] == [] || a[1..][|a| - 2] == a[|a| - 1];
      CollapseAppend(a[1..], r);
      CharSeam(a, r);
    }
  }

  /** The whitespace-run step of `CollapseAppend`, given the shorter case. */
  lemma SpaceSeam(a: string, r: string, t: string)
    requires a != [] && IsSpace(a[0], RegexSpace) && t == DropSpaces(a[1..])
    requires DropSpaces(a[1..] + r) == t + r
    requires CollapseSpaces(t + r) == CollapseSpaces(t) + CollapseSpaces(r)
    ensures CollapseSpaces(a + r) == CollapseSpaces(a) + CollapseSpaces(r)
  {
    var ar := a + r;
    AppendTail(a, r);
    CollapseSpaceHead(ar);
    CollapseSpaceHead(a);
    AppendAssoc(" ", CollapseSpaces(t), CollapseSpaces(r));
  }

  lemma CollapseSpaceHead(s: string)
    requires s != [] && IsSpace(s[0], RegexSpace)
    ensures CollapseSpaces(s) == " " + CollapseSpaces(DropSpaces(s[1..]))
  {
  }

  lemma CollapseCharHead(s: string)
    requires s != [] && !IsSpace(s[0], RegexSpace)
    ensures CollapseSpaces(s) == [s[0]] + CollapseSpaces(s[1..])
  {
  }

  lemma AppendTail<T>(a: seq<T>, r: seq<T>)
    requires a != []
    ensures (a + r)[0] == a[0] && (a + r)[1..] == a[1..] + r
  {
  }

  /** A string starts with its first part, and what follows that part is the second. */
  lemma ConcatParts(x: string, y: string)
    ensures StartsWith(x + y, x) && (x + y)[|x|..] == y
  {
    assert (x + y)[..|x|] == x;
  }

  /** A string does not start with a prefix whose first character it does not have. */
  lemma FirstCharDiffers(p: string, s: string)
    requires p != [] && s != [] && s[0] != p[0]
    ensures !StartsWith(s, p)
  {
  }

  lemma AppendAssoc<T>(x: seq<T>, y: seq<T>, z: seq<T>)
    ensures x + (y + z) == (x + y) + z
  {
  }

  /** The ordinary-character step of `CollapseAppend`, given the shorter case. */
  lemma CharSeam(a: string, r: string)
    requires a != [] && !IsSpace(a[0], RegexSpace)
    requires CollapseSpaces(a[1..] + r) == CollapseSpaces(a[1..]) + CollapseSpaces(r)
    ensures CollapseSpaces(a + r) == CollapseSpaces(a) + CollapseSpaces(r)
  {
    var ar := a + r;
    AppendTail(a, r);
    CollapseCharHead(ar);
    CollapseCharHead(a);
    AppendAssoc([a[0]], CollapseSpaces(a[1..]), CollapseSpaces(r));
  }

  /**
    * Any non-empty run of whitespace between two pieces collapses to one space:
    * the run's length and its kind of whitespace do not matter.
    */
  lemma {:induction false} CollapseRun(a: string, w: string, b: string)
    requires a == [] || !IsSpace(a[|a| - 1], RegexSpace)
    requires w != [] && AllSpace(w, RegexSpace)
    requires b == [] || !IsSpace(b[0], RegexSpace)
    ensures CollapseSpaces(a + w + b) == CollapseSpaces(a) + " " + CollapseSpaces(b)
  {
    var wb := w + b;
    AppendTail(w, b);
    DropSpacesRun(w[1..], b);
    CollapseSpaceHead(wb);
    CollapseAppend(a, wb);
    AppendAssoc(a, w, b);
    AppendAssoc(CollapseSpaces(a), " ", CollapseSpaces(b));
  }

  lemma {:induction false} DropSpacesRun(w: string, b: string)
    requires AllSpace(w, RegexSpace)
    requires b == [] || !IsSpace(b[0], RegexSpace)
    ensures DropSpaces(w + b) == b
    decreases |w|
  {
    if w != [] {
      assert (w + b)[1..] == w[1..] + b;
      DropSpacesRun(w[1..], b);
    }
  }

  lemma {:induction false} DropSpacesPrefix(a: string, rest: string)
    requires DropSpaces(a) != []
    ensures DropSpaces(a + rest) == DropSpaces(a) + rest
    decreases |a|
  {
    if a != [] && IsSpace(a[0], RegexSpace) {
      assert (a + rest)[1..] == a[1..] + rest;
      DropSpacesPrefix(a[1..], rest);
    }
  }

  // ---- explode(',', $s) and implode ----

  /** PHP `explode($sep, $s)`: at least one piece, none containing `sep`. */
  function Split(s: string, sep: char): (parts: seq<string>)
    ensures |parts| >= 1
    ensures forall p :: p in parts ==> sep !in p
  {
    if s == [] then [""]
    else
      var rest := Split(s[1..], sep);
      if s[0] == sep then [""] + rest else [[s[0]] + rest[0]] + rest[1..]
  }

  /** PHP `implode($sep, $parts)`. */
  function Join(parts: seq<string>, sep: char): string
    requires |parts| >= 1
  {
    if |parts| == 1 then parts[0] else parts[0] + [sep] + Join(parts[1..], sep)
  }

  /** `implode` undoes `explode`. */
  lemma {:induction false} JoinSplit(s: string, sep: char)
    ensures Join(Split(s, sep), sep) == s
  {
    if s != [] {
      var rest := Split(s[1..], sep);
      JoinSplit(s[1..], sep);
      if s[0] == sep {
        assert ([""] + rest)[1..] == rest;
      } else {
        var parts := [[s[0]] + rest[0]] + rest[1..];
        if |rest| == 1 {
        } else {
          assert parts[1..] == rest[1..];
        }
      }
    }
  }

  /** `explode` undoes `implode` when no piece contains the separator. */
  lemma {:induction false} SplitJoin(parts: seq<string>, sep: char)
    requires |parts| >= 1 && forall p :: p in parts ==> sep !in p
    ensures Split(Join(parts, sep), sep) == parts
    decreases |parts|, |parts[0]|
  {
    if |parts| == 1 {
      SplitNoSep(parts[0], sep);
    } else if parts[0] == [] {
      assert Join(parts, sep) == [sep] + Join(parts[1..], sep);
      assert ([sep] + Join(parts[1..], sep))[1..] == Join(parts[1..], sep);
      SplitJoin(parts[1..], sep);
      assert [""] + parts[1..] == parts;
    } else {
      var p0 := parts[0];
      var shorter := [p0[1..]] + parts[1..];
      assert shorter[1..] == parts[1..];
      assert Join(shorter, sep) == p0[1..] + [sep] + Join(parts[1..], sep);
      assert Join(parts, sep) == [p0[0]] + Join(shorter, sep);
      assert ([p0[0]] + Join(shorter, sep))[1..] == Join(shorter, sep);
      forall p | p in shorter ensures sep !in p {
        if p == p0[1..] {
          assert p0 in parts;
        } else {
          assert p in parts[1..];
        }
      }
      assert p0 in parts;
      SplitJoin(shorter, sep);
      assert [p0[0]] + p0[1..] == p0;
      assert [[p0[0]] + shorter[0]] + shorter[1..] == parts;
    }
  }

  lemma {:induction false} SplitNoSep(s: string, sep: char)
    requires sep !in s
    ensures Split(s, sep) == [s]
  {
    if s != [] {
      assert sep !in s[1..];
      SplitNoSep(s[1..], sep);
      assert [s[0]] + s[1..] == s;
    }
  }

  // ---- PHP truthiness of strings and decimal rendering ----

  /** A PHP string is falsy exactly when it is "" or "0". */
  predicate TruthyString(s: string) {
    s != "" && s != "0"
  }

  function DigitChar(d: nat): char
    requires d < 10
  {
    "0123456789"[d]
  }

  predicate IsDigit(c: char) {
    '0' <= c <= '9'
  }

  function DigitValue(c: char): nat
    requires IsDigit(c)
  {
    c as int - '0' as int
  }

  /** Decimal rendering of a natural number, as PHP string interpolation prints it. */
  function NatToString(n: nat): (s: string)
    ensures |s| >= 1 && forall i :: 0 <= i < |s| ==> IsDigit(s[i])
    ensures |s| > 1 ==> s[0] != '0'
  {
    if n < 10 then [DigitChar(n)] else NatToString(n / 10) + [DigitChar(n % 10)]
  }

  function IntToString(n: int): string {
    if n < 0 then "-" + NatToString(-n) else NatToString(n)
  }

  /** Value of a string of decimal digits. */
  function DigitsValue(s: string): nat
    requires forall i :: 0 <= i < |s| ==> IsDigit(s[i])
  {
    if s == [] then 0 else DigitsValue(s[..|s| - 1]) * 10 + DigitValue(s[|s| - 1])
  }

  /** Reading the digits back gives the number: the rendering is faithful. */
  lemma {:induction false} NatToStringValue(n: nat)
    ensures DigitsValue(NatToString(n)) == n
  {
    if n >= 10 {
      var s := NatToString(n);
      assert s[..|s| - 1] == NatToString(n / 10);
      NatToStringValue(n / 10);
    }
  }

  /** `10 ** n`; never 0, so it can be a denominator. */
  function Pow10(n: nat): (r: nat)
    ensures r >= 1
  {
    if n == 0 then 1 else 10 * Pow10(n - 1)
  }
}
