/**
  * `AIPreferencesController::update`: the user's AI tuning sliders. The
  * request's `preferences` array is filtered down to a whitelist of eight
  * keys; each value that PHP considers numeric is cast to an integer and
  * clamped to 0..100; the result replaces the stored map wholesale.
  */
module AiPreferences {
  import opened Outcomes
  import opened Text
  import opened PhpArray

  /** `KEYS`, in the order the loop visits them. */
  const Keys: seq<string> := ["tone", "strictness", "detail", "creativity", "trendiness", "comfort", "weather", "budget"]

  predicate Distinct(ks: seq<string>) {
    forall i, j :: 0 <= i < j < |ks| ==> ks[i] != ks[j]
  }

  lemma KeysDistinct()
    ensures |Keys| == 8 && Distinct(Keys)
  {
  }

  // ----- is_numeric and (int) on strings -----

  /** Length of the run of decimal digits at the start of `s`. */
  function DigitRun(s: string): (n: nat)
    ensures n <= |s| && (n == |s| || !IsDigit(s[n]))
    ensures forall i :: 0 <= i < n ==> IsDigit(s[i])
  {
    if s != [] && IsDigit(s[0]) then 1 + DigitRun(s[1..]) else 0
  }

  /** An optional sign: whether it is a minus, and what follows it. */
  function Sign(t: string): (bool, string) {
    if t != [] && (t[0] == '+' || t[0] == '-') then (t[0] == '-', t[1..]) else (false, t)
  }

  /**
    * The exponent part `[eE][+-]?[0-9]+` making up all of `e`, or "" for
    * exponent 0; `None` when `e` is anything else.
    */
  function Exponent(e: string): (r: Option<int>)
    ensures e == [] ==> r == Some(0)
    ensures r.Some? && e != [] ==>
      (e[0] == 'e' || e[0] == 'E') && Sign(e[1..]).1 != [] && DigitRun(Sign(e[1..]).1) == |Sign(e[1..]).1|
  {
    if e == [] then Some(0)
    else if e[0] != 'e' && e[0] != 'E' then None
    else
      var (neg, d) := Sign(e[1..]);
      if d != [] && DigitRun(d) == |d| then
        var v: int := DigitsValue(d);
        Some(if neg then -v else v)
      else None
  }

  /**
    * The unsigned part of a numeric string: digits with an optional fraction
    * (at least one digit overall), then an optional exponent. Its value is
    * truncated toward zero, computed exactly.
    */
  function Unsigned(u: string): (r: Option<nat>)
    ensures r.Some? ==> u != []
  {
    var a := DigitRun(u);
    var whole, r1 := u[..a], u[a..];
    var dot := r1 != [] && r1[0] == '.';
    var r2 := if dot then r1[1..] else r1;
    var b := DigitRun(r2);
    var frac := if dot then r2[..b] else "";
    var rest := if dot then r2[b..] else r1;
    if whole == [] && frac == [] then None
    else match Exponent(rest)
      case None => None
      case Some(exp) =>
        JoinedDigits(u, r2, whole, frac);
        Some(Shifted(DigitsValue(whole + frac), |frac| - exp))
  }

  /** The digits' value `n` with the decimal point `scale` places from the right, truncated. */
  function Shifted(n: nat, scale: int): nat {
    var p := Pow10(if scale <= 0 then -scale else scale);
    NatArith(n, p);
    if scale <= 0 then n * p else n / p
  }

  /** Scaling a count by a positive power keeps it a count. */
  lemma NatArith(n: nat, p: nat)
    requires p >= 1
    ensures n * p >= 0 && n / p >= 0
  {
  }

  /** The run of leading digits is all digits. */
  lemma RunDigits(s: string)
    ensures forall i :: 0 <= i < DigitRun(s) ==> IsDigit(s[..DigitRun(s)][i])
  {
  }

  /** The whole part and the fraction of a numeric string are digits, and so is the two together. */
  lemma JoinedDigits(u: string, r2: string, whole: string, frac: string)
    requires whole == u[..DigitRun(u)]
    requires frac == "" || frac == r2[..DigitRun(r2)]
    ensures forall i :: 0 <= i < |whole + frac| ==> IsDigit((whole + frac)[i])
  {
    RunDigits(u);
    RunDigits(r2);
    DigitsJoin(whole, frac);
  }

  /** Two runs of digits make one. */
  lemma DigitsJoin(x: string, y: string)
    requires forall i :: 0 <= i < |x| ==> IsDigit(x[i])
    requires forall i :: 0 <= i < |y| ==> IsDigit(y[i])
    ensures forall i :: 0 <= i < |x + y| ==> IsDigit((x + y)[i])
  {
  }

  /**
    * `is_numeric($s) ? (int) $s : null` for a string: optional surrounding
    * whitespace, an optional sign, then the unsigned part.
    */
  function NumericString(s: string): (r: Option<int>)
    ensures r.Some? ==> Trim(s, RegexSpace) != []
  {
    var (neg, u) := Sign(Trim(s, RegexSpace));
    match Unsigned(u)
    case None => None
    case Some(m) =>
      var v: int := m;
      Some(if neg then -v else v)
  }

  /** `is_int($v) || is_numeric($v)`, then `(int) $v`; `None` for a skipped value. */
  function NumericValue(v: Value): (r: Option<int>)
    ensures v.Int? ==> r == Some(v.i)
    ensures v.Null? || v.Bool? || v.Arr? ==> r == None
  {
    match v
    case Int(n) => Some(n)
    case Str(s) => NumericString(s)
    case _ => None
  }

  lemma {:induction false} DigitRunAll(s: string)
    requires forall i :: 0 <= i < |s| ==> IsDigit(s[i])
    ensures DigitRun(s) == |s|
  {
    if s != [] {
      DigitRunAll(s[1..]);
    }
  }

  /** A plain run of digits is numeric, with its decimal value. */
  lemma UnsignedDigits(d: string)
    requires d != [] && forall i :: 0 <= i < |d| ==> IsDigit(d[i])
    ensures Unsigned(d) == Some(DigitsValue(d))
  {
    DigitRunAll(d);
    assert d[..|d|] == d && d[|d|..] == [];
    assert d + "" == d;
    assert Shifted(DigitsValue(d), 0) == DigitsValue(d);
  }

  /** The decimal rendering of any integer is numeric and casts back to it. */
  lemma IntStringNumeric(n: int)
    ensures NumericValue(Str(IntToString(n))) == Some(n)
  {
    var m: nat := if n < 0 then -n else n;
    IntStringSign(n);
    UnsignedDigits(NatToString(m));
    NatToStringValue(m);
  }

  /** The rendering has nothing to trim, and its sign part is the minus of a negative number. */
  lemma IntStringSign(n: int)
    ensures Trim(IntToString(n), RegexSpace) == IntToString(n)
    ensures Sign(IntToString(n)) == (n < 0, NatToString(if n < 0 then -n else n))
  {
    TrimNoop(IntToString(n), RegexSpace);
  }

  // ----- the clean map -----

  /** The in-place clamp of `$num`. */
  function Clamp(n: int): (r: int)
    ensures 0 <= r <= 100
    ensures n < 0 ==> r == 0
    ensures n > 100 ==> r == 100
    ensures 0 <= n <= 100 ==> r == n
  {
    if n < 0 then 0 else if n > 100 then 100 else n
  }

  /** The entry the loop writes for `key`, if any. */
  function EntryFor(prefs: Entries, key: string): (r: Option<(Key, Value)>)
    ensures r.Some? ==> r.value.0 == StrKey(key) && r.value.1.Int? && 0 <= r.value.1.i <= 100
    ensures r.None? <==> Get(prefs, StrKey(key)).None? || NumericValue(Get(prefs, StrKey(key)).value).None?
  {
    match Get(prefs, StrKey(key))
    case None => None
    case Some(v) =>
      match NumericValue(v)
      case None => None
      case Some(n) => Some((StrKey(key), Int(Clamp(n))))
  }

  /** `$clean` after the loop has visited `keys`, in order. */
  function CleanFor(prefs: Entries, keys: seq<string>): (r: Entries)
    ensures |r| <= |keys|
    decreases |keys|
  {
    if keys == [] then []
    else
      var before := CleanFor(prefs, keys[..|keys| - 1]);
      match EntryFor(prefs, keys[|keys| - 1])
      case None => before
      case Some(e) => before + [e]
  }

  /** The map `update` stores. */
  function Sanitize(prefs: Entries): (r: Entries)
    ensures |r| <= |Keys|
  {
    CleanFor(prefs, Keys)
  }

  /** Every entry of the clean map is a visited key with an integer in 0..100. */
  lemma {:induction false} CleanForShape(prefs: Entries, keys: seq<string>)
    ensures forall i :: 0 <= i < |CleanFor(prefs, keys)| ==>
      var e := CleanFor(prefs, keys)[i];
      e.0.StrKey? && e.0.s in keys && e.1.Int? && 0 <= e.1.i <= 100
    decreases |keys|
  {
    if keys != [] {
      var init := keys[..|keys| - 1];
      CleanForShape(prefs, init);
      assert forall k :: k in init ==> k in keys;
    }
  }

  /** A visited key is in the clean map exactly when it was sent with a numeric value, which is then clamped. */
  lemma {:induction false} CleanForGet(prefs: Entries, keys: seq<string>, k: string)
    requires Distinct(keys)
    ensures Get(CleanFor(prefs, keys), StrKey(k)) ==
      if k in keys && EntryFor(prefs, k).Some? then Some(EntryFor(prefs, k).value.1) else None
    decreases |keys|
  {
    if keys != [] {
      var init := keys[..|keys| - 1];
      var last := keys[|keys| - 1];
      assert Distinct(init);
      CleanForGet(prefs, init, k);
      CleanForShape(prefs, init);
      var before := CleanFor(prefs, init);
      assert k in keys <==> k in init || k == last;
      assert last !in init;
      match EntryFor(prefs, last)
      case None =>
      case Some(e) =>
        GetAppend(before, e.0, e.1, StrKey(k));
    }
  }

  /** Only whitelisted keys are stored, each at most once, each with an integer in 0..100. */
  lemma SanitizeShape(prefs: Entries)
    ensures forall i :: 0 <= i < |Sanitize(prefs)| ==>
      var e := Sanitize(prefs)[i];
      e.0.StrKey? && e.0.s in Keys && e.1.Int? && 0 <= e.1.i <= 100
    ensures forall i, j :: 0 <= i < j < |Sanitize(prefs)| ==> Sanitize(prefs)[i].0 != Sanitize(prefs)[j].0
  {
    CleanForShape(prefs, Keys);
    KeysDistinct();
    CleanForDistinct(prefs, Keys);
  }

  /** The loop visits distinct keys, so no key is written twice. */
  lemma {:induction false} CleanForDistinct(prefs: Entries, keys: seq<string>)
    requires Distinct(keys)
    ensures forall i, j :: 0 <= i < j < |CleanFor(prefs, keys)| ==> CleanFor(prefs, keys)[i].0 != CleanFor(prefs, keys)[j].0
    decreases |keys|
  {
    if keys != [] {
      var init := keys[..|keys| - 1];
      var last := keys[|keys| - 1];
      assert Distinct(init);
      CleanForDistinct(prefs, init);
      CleanForShape(prefs, init);
      assert last !in init;
    }
  }

  /** A value that is not numeric (a non-numeric string, null, a boolean, an array) leaves its key out. */
  lemma NonNumericSkipped(prefs: Entries, k: string)
    requires Get(prefs, StrKey(k)).Some? && NumericValue(Get(prefs, StrKey(k)).value).None?
    ensures !HasKey(Sanitize(prefs), StrKey(k))
  {
    SanitizeGet(prefs, k);
  }

  /** `is_numeric` rejects a number followed by letters, the empty string, null and arrays. */
  lemma NonNumericExamples(es: Entries)
    ensures NumericValue(Str("12abc")).None?
    ensures NumericValue(Str("")).None?
    ensures NumericValue(Null).None? && NumericValue(Arr(es)).None?
  {
    var s := "12abc";
    assert !IsSpace(s[0], RegexSpace) && !IsSpace(s[|s| - 1], RegexSpace);
    TrimNoop(s, RegexSpace);
    assert Sign(s) == (false, s);
    assert DigitRun(s) == 2 by {
      assert s[1..][1..] == "abc";
    }
    assert s[2..] == "abc";
    assert Exponent("abc") == None;
  }

  /**
    * For a whitelisted key: absent or non-numeric values are skipped, and a
    * numeric value `n` is stored as `Clamp(n)`; a non-whitelisted key is never stored.
    */
  lemma SanitizeGet(prefs: Entries, k: string)
    ensures Get(Sanitize(prefs), StrKey(k)) ==
      if k !in Keys then None
      else match Get(prefs, StrKey(k))
        case None => None
        case Some(v) =>
          match NumericValue(v)
          case None => None
          case Some(n) => Some(Int(Clamp(n)))
  {
    KeysDistinct();
    CleanForGet(prefs, Keys, k);
  }

  /** An integer already in 0..100 is stored unchanged. */
  lemma SanitizeKeepsInRange(prefs: Entries, k: string, n: int)
    requires k in Keys && Get(prefs, StrKey(k)) == Some(Int(n)) && 0 <= n <= 100
    ensures Get(Sanitize(prefs), StrKey(k)) == Some(Int(n))
  {
    SanitizeGet(prefs, k);
  }

  /** The clean map depends only on what the whitelisted keys look up to. */
  lemma {:induction false} CleanForLookups(p: Entries, q: Entries, keys: seq<string>)
    requires forall k :: k in keys ==> EntryFor(p, k) == EntryFor(q, k)
    ensures CleanFor(p, keys) == CleanFor(q, keys)
    decreases |keys|
  {
    if keys != [] {
      CleanForLookups(p, q, keys[..|keys| - 1]);
    }
  }

  /** Sending the stored map back stores the same map. */
  lemma SanitizeIdempotent(prefs: Entries)
    ensures Sanitize(Sanitize(prefs)) == Sanitize(prefs)
  {
    var q := Sanitize(prefs);
    forall k | k in Keys ensures EntryFor(q, k) == EntryFor(prefs, k) {
      SanitizeGet(prefs, k);
    }
    CleanForLookups(q, prefs, Keys);
  }

  /**
    * The foreach over `KEYS`: skips absent and non-numeric values, clamps
    * `$num` in place, and assigns `$clean[$key]`.
    */
  method Clean(prefs: Entries) returns (clean: Entries)
    ensures clean == Sanitize(prefs)
  {
    clean := [];
    var i := 0;
    while i < |Keys|
      invariant 0 <= i <= |Keys|
      invariant clean == CleanFor(prefs, Keys[..i])
    {
      var key := Keys[i];
      assert Keys[..i + 1][..i] == Keys[..i];
      var found := Get(prefs, StrKey(key));
      if found.None? {
        i := i + 1;
        continue;
      }
      var val := NumericValue(found.value);
      if val.None? {
        i := i + 1;
        continue;
      }
      var num := val.value;
      if num < 0 {
        num := 0;
      }
      if num > 100 {
        num := 100;
      }
      FreshKey(prefs, i);
      clean := Set(clean, StrKey(key), Int(num));
      i := i + 1;
    }
    assert Keys[..|Keys|] == Keys;
  }

  /** The key the loop is about to write is not yet in the clean map. */
  lemma FreshKey(prefs: Entries, i: nat)
    requires i < |Keys|
    ensures !HasKey(CleanFor(prefs, Keys[..i]), StrKey(Keys[i]))
  {
    KeysDistinct();
    assert Distinct(Keys[..i]);
    CleanForGet(prefs, Keys[..i], Keys[i]);
    assert Keys[i] !in Keys[..i];
  }

  /** The authenticated user, reduced to the column `update` writes. */
  class User {
    var aiPreferences: Value

    constructor (stored: Value)
      ensures aiPreferences == stored
    {
      aiPreferences := stored;
    }

    /**
      * `update`: `preferences` must be a non-empty array (`required|array`,
      * 422 otherwise, nothing stored); then the sanitised map replaces the
      * stored one and is returned with 200.
      */
    method UpdatePreferences(preferences: Value) returns (status: int, body: Option<Value>)
      modifies this
      ensures !(preferences.Arr? && preferences.entries != []) ==>
        status == 422 && body == None && aiPreferences == old(aiPreferences)
      ensures preferences.Arr? && preferences.entries != [] ==>
        status == 200 && aiPreferences == Arr(Sanitize(preferences.entries)) && body == Some(aiPreferences)
    {
      if !preferences.Arr? || preferences.entries == [] {
        return 422, None;
      }
      var clean := Clean(preferences.entries);
      aiPreferences := Arr(clean);
      status, body := 200, Some(aiPreferences);
    }
  }
}
