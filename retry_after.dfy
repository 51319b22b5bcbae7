/**
  * Reading a retry delay out of a Gemini error text. `parseRetryAfterSeconds`
  * (the same in both analysis controllers) looks for `Please retry in N s.` /
  * `N ms.` and then for `"retryDelay": "Ns"`, rounding up and never answering
  * less than one second; `storeMessage` has its own, looser reading of
  * `retry in Ns`. The regular expressions are written out as matchers that
  * return the capture at a given position, and `preg_match` as the search for
  * the leftmost position that matches. Decimal literals are kept as digit
  * strings, so the rounding up is exact.
  */
module RetryAfter {
  import opened Outcomes
  import opened Text

  /** `preg_match`: the leftmost position at or after `i` where `at` matches, with its capture. */
  function FirstMatch<T>(s: string, i: nat, at: (string, nat) -> Option<T>): (r: Option<(nat, T)>)
    ensures r.Some? ==> i <= r.value.0 <= |s| && at(s, r.value.0) == Some(r.value.1)
    ensures r.Some? ==> forall p :: i <= p < r.value.0 ==> at(s, p).None?
    ensures r.None? ==> forall p :: i <= p <= |s| ==> at(s, p).None?
    decreases |s| + 1 - i
  {
    if i > |s| then None
    else match at(s, i)
      case Some(x) => Some((i, x))
      case None => FirstMatch(s, i + 1, at)
  }

  /** The lower-case literal `lit` occurs at `p`, ignoring ASCII case (the `/i` flag). */
  predicate CiAt(s: string, p: nat, lit: string) {
    p + |lit| <= |s| && CiChars(s,p,lit)
  }

  predicate CiChars(s: string, p: nat, lit: string) requires p + |lit| <= |s| { forall k :: 0 <= k < |lit| ==> LowerChar(s[p + k]) == lit[k] }
  /** The first character of a case-insensitive match. */
  lemma CiHead(s: string, p: nat, lit: string)
    requires CiAt(s, p, lit) && lit != []
    ensures p < |s| && LowerChar(s[p]) == lit[0]
  {
    assert LowerChar(s[p + 0]) == lit[0];
  }

  /** Every character in `s[i..j]` satisfies `ok`. */
  predicate AllOf(s: string, i: nat, j: nat, cls: Class)
    requires i <= j <= |s|
  {
    forall k {:trigger InClass(s[k], cls)} :: i <= k < j ==> InClass(s[k], cls)
  }

  /** Length of the longest run of characters satisfying `ok` that starts at `p`. */
  function Run(s: string, p: nat, cls: Class): (n: nat)
    requires p <= |s|
    ensures p + n <= |s|
    ensures p + n == |s| || !InClass(s[p + n], cls)
    decreases |s| - p
  {
    if p == |s| || !InClass(s[p], cls) then 0 else 1 + Run(s, p + 1, cls)
  }

  /** Every character the run covers is in the class. */
  lemma {:induction false} RunAll(s: string, p: nat, cls: Class)
    requires p <= |s|
    ensures AllOf(s, p, p + Run(s, p, cls), cls)
    decreases |s| - p
  {
    if p < |s| && InClass(s[p], cls) {
      RunAll(s, p + 1, cls);
    }
  }

  /** The character classes the patterns use: `\s`, `[0-9.]` and `\d`. */
  datatype Class = Spaces | Number | Digits

  predicate InClass(c: char, cls: Class) {
    match cls
    case Spaces => IsSpace(c, RegexSpace)
    case Number => IsDigit(c) || c == '.'
    case Digits => IsDigit(c)
  }

  /** A run that starts where a character outside the class stops it is exactly the run. */
  lemma {:induction false} RunEnds(s: string, p: nat, end: nat, cls: Class)
    requires p <= end <= |s|
    requires AllOf(s, p, end, cls)
    requires end == |s| || !InClass(s[end], cls)
    ensures Run(s, p, cls) == end - p
    decreases end - p
  {
    if p < end {
      RunEnds(s, p + 1, end, cls);
    }
  }

  /** The text a run of digits covers denotes a number. */
  lemma RunDigits(t: string, p: nat)
    requires p <= |t|
    ensures Numeral(t[p..p + Run(t, p, Digits)])
  {
    var r := t[p..p + Run(t, p, Digits)];
    RunAll(t, p, Digits);
    forall i | 0 <= i < |r| ensures IsDigit(r[i]) {
      assert r[i] == t[p + i] && InClass(t[p + i], Digits);
    }
  }

  /** A string of decimal digits only. */
  predicate Numeral(r: string) {
    forall i :: 0 <= i < |r| ==> IsDigit(r[i])
  }

  // ----- `/Please retry in\s+([0-9.]+)\s*(ms|s)\./i` -----

  datatype Unit = Seconds | Millis

  function UnitText(u: Unit): string {
    match u
    case Seconds => "s."
    case Millis => "ms."
  }

  const PleaseRetry := "please retry in"

  /**
    * The match at `p`: every quantifier in the pattern is followed by a
    * character its class excludes, so the greedy runs are the only way to match.
    */
  function PleaseRetryAt(s: string, p: nat): Option<(string, Unit)> {
    if CiAt(s, p, PleaseRetry) then CaptureAt(s, p + |PleaseRetry|) else None
  }

  /** `\s+([0-9.]+)\s*(ms|s)\.` at `q`, just after the literal. */
  function CaptureAt(s: string, q: nat): Option<(string, Unit)>
    requires q <= |s|
  {
    var d := q + Run(s, q, Spaces);
    if d == q then None else NumberAt(s, d)
  }

  /** `([0-9.]+)\s*(ms|s)\.` at `d`. */
  function NumberAt(s: string, d: nat): Option<(string, Unit)>
    requires d <= |s|
  {
    var e := d + Run(s, d, Number);
    if e == d then None
    else match UnitAt(s, e + Run(s, e, Spaces))
      case Some(unit) => Some((s[d..e], unit))
      case None => None
  }

  lemma UnitsDiffer(s: string, u: nat)
    ensures !(CiAt(s, u, "ms.") && CiAt(s, u, "s."))
  {
    if CiAt(s, u, "ms.") && CiAt(s, u, "s.") {
      CiHead(s, u, "ms.");
      CiHead(s, u, "s.");
    }
  }

  /** `(ms|s)\.` at `u`: the alternatives in the order the pattern lists them. */
  function UnitAt(s: string, u: nat): Option<Unit> {
    if CiAt(s, u, "ms.") then Some(Millis)
    else if CiAt(s, u, "s.") then Some(Seconds)
    else None
  }

  /**
    * What follows the literal, read as a regular expression: a non-empty
    * whitespace stretch from `q` up to `d`, a non-empty number up to `e`,
    * whitespace up to `u`, then the unit and a dot.
    */
  predicate CaptureShape(s: string, q: nat, d: nat, e: nat, u: nat, unit: Unit) {
    && q < d < e <= u <= |s|
    && AllOf(s, q, d, Spaces)
    && AllOf(s, d, e, Number)
    && AllOf(s, e, u, Spaces)
    && CiAt(s, u, UnitText(unit))
  }

  /** The whole pattern read as a regular expression: the literal, then the capture. */
  predicate PleaseRetryShape(s: string, p: nat, d: nat, e: nat, u: nat, unit: Unit) {
    CiAt(s, p, PleaseRetry) && CaptureShape(s, p + |PleaseRetry|, d, e, u, unit)
  }

  lemma UnitHead(s: string, u: nat, unit: Unit)
    requires CiAt(s, u, UnitText(unit))
    ensures u < |s| && !InClass(s[u], Number) && !InClass(s[u], Spaces)
    ensures unit == Seconds ==> !CiAt(s, u, "ms.")
  {
    CiHead(s, u, UnitText(unit));
    if unit == Seconds && CiAt(s, u, "ms.") {
      CiHead(s, u, "ms.");
    }
  }

  lemma UnitAtSound(s: string, u: nat)
    requires UnitAt(s, u).Some?
    ensures CiAt(s, u, UnitText(UnitAt(s, u).value))
  {
  }

  /** The positions the matcher reaches when it succeeds after the literal. */
  lemma CapturePositions(s: string, q: nat, d: nat, e: nat, u: nat)
    requires q <= |s| && CaptureAt(s, q).Some?
    requires d == q + Run(s, q, Spaces) && e == d + Run(s, d, Number) && u == e + Run(s, e, Spaces)
    ensures q < d < e <= u <= |s|
    ensures UnitAt(s, u).Some?
    ensures CaptureAt(s, q).value == (s[d..e], UnitAt(s, u).value)
  {
    assert q < d && CaptureAt(s, q) == NumberAt(s, d);
    NumberPositions(s, d, e, u);
  }

  lemma NumberPositions(s: string, d: nat, e: nat, u: nat)
    requires d <= |s| && NumberAt(s, d).Some?
    requires e == d + Run(s, d, Number) && u == e + Run(s, e, Spaces)
    ensures d < e <= u <= |s|
    ensures UnitAt(s, u).Some?
    ensures NumberAt(s, d).value == (s[d..e], UnitAt(s, u).value)
  {
  }

  /** Whatever the matcher returns is a match of the pattern. */
  lemma PleaseRetrySound(s: string, p: nat)
    requires PleaseRetryAt(s, p).Some?
    ensures var (digits, unit) := PleaseRetryAt(s, p).value;
      exists d: nat, e: nat, u: nat :: PleaseRetryShape(s, p, d, e, u, unit) && digits == s[d..e]
  {
    var q := p + |PleaseRetry|;
    assert CiAt(s, p, PleaseRetry) && PleaseRetryAt(s, p) == CaptureAt(s, q);
    var d := q + Run(s, q, Spaces);
    var e := d + Run(s, d, Number);
    var u := e + Run(s, e, Spaces);
    CapturePositions(s, q, d, e, u);
    var unit := UnitAt(s, u).value;
    UnitAtSound(s, u);
    CaptureShapeOfRuns(s, q, d, e, u, unit);
    assert PleaseRetryShape(s, p, d, e, u, unit);
  }

  lemma CaptureShapeOfRuns(s: string, q: nat, d: nat, e: nat, u: nat, unit: Unit)
    requires q < d < e <= u <= |s|
    requires d == q + Run(s, q, Spaces)
    requires e == d + Run(s, d, Number) && u == e + Run(s, e, Spaces)
    requires CiAt(s, u, UnitText(unit))
    ensures CaptureShape(s, q, d, e, u, unit)
  {
    RunAll(s, q, Spaces);
    RunAll(s, d, Number);
    RunAll(s, e, Spaces);
  }

  /** The unit text at `u` decides the unit: `ms.` and `s.` cannot both start there. */
  lemma UnitAtComplete(s: string, u: nat, unit: Unit)
    requires CiAt(s, u, UnitText(unit))
    ensures UnitAt(s, u) == Some(unit)
  {
    UnitsDiffer(s, u);
  }

  /** Every match of the pattern is found by the matcher, with the same capture and unit. */
  lemma PleaseRetryComplete(s: string, p: nat, d: nat, e: nat, u: nat, unit: Unit)
    requires PleaseRetryShape(s, p, d, e, u, unit)
    ensures PleaseRetryAt(s, p) == Some((s[d..e], unit))
  {
    CaptureComplete(s, p + |PleaseRetry|, d, e, u, unit);
  }

  lemma CaptureComplete(s: string, q: nat, d: nat, e: nat, u: nat, unit: Unit)
    requires CaptureShape(s, q, d, e, u, unit)
    ensures CaptureAt(s, q) == Some((s[d..e], unit))
  {
    UnitHead(s, u, unit);
    assert Run(s, q, Spaces) == d - q by {
      assert InClass(s[d], Number);
      RunEnds(s, q, d, Spaces);
    }
    assert Run(s, d, Number) == e - d by {
      assert e < u ==> InClass(s[e], Spaces);
      RunEnds(s, d, e, Number);
    }
    assert Run(s, e, Spaces) == u - e by {
      RunEnds(s, e, u, Spaces);
    }
    UnitAtComplete(s, u, unit);
    CaptureAtRuns(s, q, d, e, u, unit);
  }

  lemma CaptureAtRuns(s: string, q: nat, d: nat, e: nat, u: nat, unit: Unit)
    requires q < d < e <= u <= |s|
    requires Run(s, q, Spaces) == d - q && Run(s, d, Number) == e - d && Run(s, e, Spaces) == u - e
    requires UnitAt(s, u) == Some(unit)
    ensures CaptureAt(s, q) == Some((s[d..e], unit))
  {
    NumberAtRuns(s, d, e, u, unit);
  }

  lemma NumberAtRuns(s: string, d: nat, e: nat, u: nat, unit: Unit)
    requires d < e <= u <= |s|
    requires Run(s, d, Number) == e - d && Run(s, e, Spaces) == u - e
    requires UnitAt(s, u) == Some(unit)
    ensures NumberAt(s, d) == Some((s[d..e], unit))
  {
  }

  // ----- `/"retryDelay"\s*:\s*"(\d+)s"/i` (and `([0-9]+)`, the same class) -----

  const RetryDelay := "\"retrydelay\""

  /** The match at `p`: the digits of the delay. */
  function RetryDelayAt(s: string, p: nat): Option<string> {
    if CiAt(s, p, RetryDelay) then ColonAt(s, p + |RetryDelay|) else None
  }

  /** `\s*:` at `a`, then the rest of the pattern. */
  function ColonAt(s: string, a: nat): Option<string>
    requires a <= |s|
  {
    var colon := a + Run(s, a, Spaces);
    if CiAt(s, colon, ":") then QuotedDigitsAt(s, colon + 1) else None
  }

  /** `\s*"` at `b`, then the digits. */
  function QuotedDigitsAt(s: string, b: nat): Option<string>
    requires b <= |s|
  {
    var quote := b + Run(s, b, Spaces);
    if CiAt(s, quote, "\"") then DelayDigitsAt(s, quote + 1) else None
  }

  /** `(\d+)s"` at `d`: the captured digits. */
  function DelayDigitsAt(s: string, d: nat): Option<string>
    requires d <= |s|
  {
    var e := d + Run(s, d, Digits);
    if e == d || !CiAt(s, e, "s\"") then None else Some(s[d..e])
  }

  /**
    * What follows the colon, read as a regular expression: whitespace from `b`
    * up to the opening quote, the digits in `d..e`, then `s"`.
    */
  predicate QuotedShape(s: string, b: nat, d: nat, e: nat) {
    && b < d < e <= |s|
    && AllOf(s, b, d - 1, Spaces)
    && s[d - 1] == '"'
    && AllOf(s, d, e, Digits)
    && CiAt(s, e, "s\"")
  }

  /** What follows the literal: whitespace from `a` up to the colon, then the rest. */
  predicate ColonShape(s: string, a: nat, colon: nat, d: nat, e: nat) {
    && a <= colon < |s|
    && AllOf(s, a, colon, Spaces)
    && s[colon] == ':'
    && QuotedShape(s, colon + 1, d, e)
  }

  /** The delay pattern read as a regular expression, the digits lying in `d..e`. */
  predicate RetryDelayShape(s: string, p: nat, colon: nat, d: nat, e: nat) {
    CiAt(s, p, RetryDelay) && ColonShape(s, p + |RetryDelay|, colon, d, e)
  }

  lemma DelayDigitsPositions(s: string, d: nat)
    requires d <= |s| && DelayDigitsAt(s, d).Some?
    ensures var e := d + Run(s, d, Digits);
      d < e && CiAt(s, e, "s\"") && DelayDigitsAt(s, d).value == s[d..e]
  {
  }

  /** Whatever the matcher returns is a match of the pattern. */
  lemma RetryDelaySound(s: string, p: nat)
    requires RetryDelayAt(s, p).Some?
    ensures exists colon: nat, d: nat, e: nat :: RetryDelayShape(s, p, colon, d, e) && RetryDelayAt(s, p).value == s[d..e]
  {
    var a := p + |RetryDelay|;
    assert CiAt(s, p, RetryDelay) && RetryDelayAt(s, p) == ColonAt(s, a);
    ColonSound(s, a);
    var colon: nat, d: nat, e: nat :| ColonShape(s, a, colon, d, e) && ColonAt(s, a).value == s[d..e];
    assert RetryDelayShape(s, p, colon, d, e);
  }

  lemma ColonSound(s: string, a: nat)
    requires a <= |s| && ColonAt(s, a).Some?
    ensures exists colon: nat, d: nat, e: nat :: ColonShape(s, a, colon, d, e) && ColonAt(s, a).value == s[d..e]
  {
    var colon := a + Run(s, a, Spaces);
    assert CiAt(s, colon, ":") && ColonAt(s, a) == QuotedDigitsAt(s, colon + 1);
    QuotedSound(s, colon + 1);
    var d: nat, e: nat :| QuotedShape(s, colon + 1, d, e) && QuotedDigitsAt(s, colon + 1).value == s[d..e];
    RunAll(s, a, Spaces);
    CiHead(s, colon, ":");
    assert ColonShape(s, a, colon, d, e);
  }

  lemma QuotedSound(s: string, b: nat)
    requires b <= |s| && QuotedDigitsAt(s, b).Some?
    ensures exists d: nat, e: nat :: QuotedShape(s, b, d, e) && QuotedDigitsAt(s, b).value == s[d..e]
  {
    var quote := b + Run(s, b, Spaces);
    assert CiAt(s, quote, "\"") && QuotedDigitsAt(s, b) == DelayDigitsAt(s, quote + 1);
    var e := quote + 1 + Run(s, quote + 1, Digits);
    DelayDigitsPositions(s, quote + 1);
    RunAll(s, b, Spaces);
    RunAll(s, quote + 1, Digits);
    CiHead(s, quote, "\"");
    assert QuotedShape(s, b, quote + 1, e);
  }

  /** The delay capture is made of digits only. */
  lemma RetryDelayDigits(s: string, p: nat)
    requires RetryDelayAt(s, p).Some?
    ensures Numeral(RetryDelayAt(s, p).value)
  {
    var a := p + |RetryDelay|;
    assert RetryDelayAt(s, p) == ColonAt(s, a);
    ColonDigits(s, a);
  }

  lemma ColonDigits(s: string, a: nat)
    requires a <= |s| && ColonAt(s, a).Some?
    ensures Numeral(ColonAt(s, a).value)
  {
    var colon := a + Run(s, a, Spaces);
    assert ColonAt(s, a) == QuotedDigitsAt(s, colon + 1);
    var quote := colon + 1 + Run(s, colon + 1, Spaces);
    assert QuotedDigitsAt(s, colon + 1) == DelayDigitsAt(s, quote + 1);
    DelayDigitsNumeral(s, quote + 1);
  }

  lemma DelayDigitsNumeral(s: string, d: nat)
    requires d <= |s| && DelayDigitsAt(s, d).Some?
    ensures Numeral(DelayDigitsAt(s, d).value)
  {
    DelayDigitsPositions(s, d);
    RunDigits(s, d);
  }

  /** Every match of the pattern is found by the matcher, with the same digits. */
  lemma RetryDelayComplete(s: string, p: nat, colon: nat, d: nat, e: nat)
    requires RetryDelayShape(s, p, colon, d, e)
    ensures RetryDelayAt(s, p) == Some(s[d..e])
  {
    ColonComplete(s, p + |RetryDelay|, colon, d, e);
  }

  lemma ColonComplete(s: string, a: nat, colon: nat, d: nat, e: nat)
    requires ColonShape(s, a, colon, d, e)
    ensures ColonAt(s, a) == Some(s[d..e])
  {
    RunEnds(s, a, colon, Spaces);
    QuotedComplete(s, colon + 1, d, e);
    assert CiAt(s, colon, ":");
  }

  lemma QuotedComplete(s: string, b: nat, d: nat, e: nat)
    requires QuotedShape(s, b, d, e)
    ensures QuotedDigitsAt(s, b) == Some(s[d..e])
  {
    RunEnds(s, b, d - 1, Spaces);
    CiHead(s, e, "s\"");
    RunEnds(s, d, e, Digits);
    DelayDigitsRuns(s, d, e);
    assert CiAt(s, d - 1, "\"");
  }

  lemma DelayDigitsRuns(s: string, d: nat, e: nat)
    requires d < e <= |s| && Run(s, d, Digits) == e - d && CiAt(s, e, "s\"")
    ensures DelayDigitsAt(s, d) == Some(s[d..e])
  {
  }

  // ----- decimal literals, exactly -----

  /** The leading digits of a `[0-9.]+` capture: what `(float)` reads before any dot. */
  function IntPart(t: string): nat {
    RunDigits(t, 0);
    DigitsValue(t[0..Run(t, 0, Digits)])
  }

  /** The digits after a first dot; a second dot and what follows it are ignored. */
  function FracDigits(t: string): (r: string)
    ensures Numeral(r)
  {
    var i := Run(t, 0, Digits);
    if i < |t| && t[i] == '.' then
      RunDigits(t, i + 1);
      t[i + 1..i + 1 + Run(t, i + 1, Digits)]
    else []
  }

  /**
    * `(float)` of a `[0-9.]+` capture, as the exact fraction `num / den`.
    */
  datatype Decimal = Decimal(num: nat, den: nat)

  function DecimalOf(t: string): (r: Decimal)
    ensures r.den >= 1
  {
    var f := FracDigits(t);
    Decimal(IntPart(t) * Pow10(|f|) + DigitsValue(f), Pow10(|f|))
  }

  /** `ceil(a / b)` on naturals: the least multiple of `b` that reaches `a`. */
  function CeilDiv(a: nat, b: nat): (r: nat)
    requires b >= 1
    ensures r * b >= a && (r == 0 || (r - 1) * b < a)
  {
    var r := (a + b - 1) / b;
    assert (a + b - 1) == r * b + (a + b - 1) % b;
    assert (r - 1) * b == r * b - b;
    r
  }

  function Max1(n: nat): (r: nat)
    ensures r >= 1 && r >= n && (n >= 1 ==> r == n)
  {
    if n < 1 then 1 else n
  }

  /** Seconds for a `Please retry in` capture: rounded up, milliseconds divided by 1000 first. */
  function SecondsFor(t: string, unit: Unit): nat {
    var v := DecimalOf(t);
    match unit
    case Seconds => CeilDiv(v.num, v.den)
    case Millis => CeilDiv(v.num, 1000 * v.den)
  }

  /**
    * `parseRetryAfterSeconds`: the first pattern anywhere in the text wins over
    * the second; a match answers at least one second, no match answers null.
    */
  function ParseRetryAfterSeconds(message: string): (r: Option<nat>)
    ensures r.Some? ==> r.value >= 1
    ensures r.None? <==> (forall p: nat :: p <= |message| ==> PleaseRetryAt(message, p).None?)
                         && (forall p: nat :: p <= |message| ==> RetryDelayAt(message, p).None?)
  {
    match FirstMatch(message, 0, PleaseRetryAt)
    case Some((_, (t, unit))) => Some(Max1(SecondsFor(t, unit)))
    case None =>
      match FirstMatch(message, 0, RetryDelayAt)
      case Some((p, digits)) => RetryDelayDigits(message, p); Some(Max1(DigitsValue(digits)))
      case None => None
  }

  /**
    * The seconds reading is the exact ceiling of the decimal: whole seconds
    * are kept, a non-zero fraction adds one.
    */
  lemma CeilSeconds(t: string)
    ensures SecondsFor(t, Seconds) == IntPart(t) + (if DigitsValue(FracDigits(t)) > 0 then 1 else 0)
  {
    var f := FracDigits(t);
    DigitsBelow(f);
    CeilOfFraction(IntPart(t), DigitsValue(f), Pow10(|f|));
  }

  /** `ceil(whole + frac / den)` for a proper fraction. */
  lemma CeilOfFraction(whole: nat, frac: nat, den: nat)
    requires frac < den
    ensures CeilDiv(whole * den + frac, den) == whole + (if frac > 0 then 1 else 0)
  {
    var num := whole * den + frac;
    var want := whole + (if frac > 0 then 1 else 0);
    assert (whole + 1) * den == whole * den + den;
    assert want * den >= num;
    assert want == 0 || (want - 1) * den < num by {
      if frac == 0 && want > 0 {
        assert (want - 1) * den == whole * den - den;
      }
    }
    CeilUnique(num, den, CeilDiv(num, den), want);
  }

  /** A string of `n` digits denotes less than `10^n`. */
  lemma {:induction false} DigitsBelow(s: string)
    requires forall i :: 0 <= i < |s| ==> IsDigit(s[i])
    ensures DigitsValue(s) < Pow10(|s|)
  {
    if s != [] {
      DigitsBelow(s[..|s| - 1]);
    }
  }

  /** The ceiling is the only natural with its two defining inequalities. */
  lemma CeilUnique(a: nat, b: nat, c: nat, c': nat)
    requires b >= 1
    requires c * b >= a && (c == 0 || (c - 1) * b < a)
    requires c' * b >= a && (c' == 0 || (c' - 1) * b < a)
    ensures c == c'
  {
  }

  // ----- `storeMessage`'s own reading -----

  const RetryIn := "retry in "

  /** `/retry in ([0-9.]+)s/i` at `p`. */
  function RetryInAt(s: string, p: nat): Option<string> {
    if !CiAt(s, p, RetryIn) then None
    else
      var d := p + |RetryIn|;
      var e := d + Run(s, d, Number);
      if e == d || !CiAt(s, e, "s") then None else Some(s[d..e])
  }

  /**
    * `storeMessage`'s retry delay: `retry in Ns` rounded up, else the
    * `retryDelay` digits, else null. Unlike `parseRetryAfterSeconds` it needs
    * no "Please" and no dot, and it can answer 0.
    */
  function InlineRetryAfter(message: string): (r: Option<nat>)
    ensures r.None? <==> (forall p: nat :: p <= |message| ==> RetryInAt(message, p).None?)
                         && (forall p: nat :: p <= |message| ==> RetryDelayAt(message, p).None?)
  {
    match FirstMatch(message, 0, RetryInAt)
    case Some((_, t)) => Some(SecondsFor(t, Seconds))
    case None =>
      match FirstMatch(message, 0, RetryDelayAt)
      case Some((p, digits)) => RetryDelayDigits(message, p); Some(DigitsValue(digits))
      case None => None
  }

  /**
    * When the text holds no `retry in`, both readings fall back to the
    * `retryDelay` digits, and the controllers' answer is the message handler's
    * raised to at least one.
    */
  lemma SameDelayDigits(message: string)
    requires forall p: nat :: p <= |message| ==> PleaseRetryAt(message, p).None?
    requires forall p: nat :: p <= |message| ==> RetryInAt(message, p).None?
    ensures ParseRetryAfterSeconds(message).Some? <==> InlineRetryAfter(message).Some?
    ensures ParseRetryAfterSeconds(message).Some? ==>
      ParseRetryAfterSeconds(message).value == Max1(InlineRetryAfter(message).value)
  {
  }
}
