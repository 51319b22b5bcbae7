/**
  * `buildModelFallbackList`, which both Gemini services define with the same
  * body and different fallback names: the configured comma-separated model
  * names (trimmed, blanks dropped) followed by the fixed fallbacks, each with a
  * leading `models/` removed, dropping empty and repeated names while keeping
  * the first occurrence.
  */
module ModelFallback {
  import opened Text

  const VisionFallbacks: seq<string> := [
    "gemini-2.5-flash-lts",
    "gemini-2.5-flash",
    "gemini-2.5-flash-lite",
    "gemini-2.5-flash-native-audio-dialog",
    "gemini-1.5-flash-latest",
    "gemini-1.5-pro-latest"
  ]

  const ChatFallbacks: seq<string> := [
    "gemini-1.5-flash-latest",
    "gemini-1.5-flash",
    "gemini-1.5-pro-latest"
  ]

  /** `array_map('trim', ...)`. */
  function TrimAll(parts: seq<string>): (r: seq<string>)
    ensures |r| == |parts| && forall i :: 0 <= i < |parts| ==> r[i] == Trim(parts[i], PhpTrim)
  {
    seq(|parts|, i requires 0 <= i < |parts| => Trim(parts[i], PhpTrim))
  }

  /** `array_filter` on strings: drops "" and "0", keeps the order. */
  function KeepTruthy(names: seq<string>): (r: seq<string>)
    ensures |r| <= |names|
    ensures forall x :: x in r <==> x in names && TruthyString(x)
  {
    if names == [] then []
    else if TruthyString(names[0]) then [names[0]] + KeepTruthy(names[1..])
    else KeepTruthy(names[1..])
  }

  /** `array_filter` keeps order and repeats: filtering two lists one after the other is filtering each. */
  lemma {:induction false} KeepTruthyAppend(a: seq<string>, b: seq<string>)
    ensures KeepTruthy(a + b) == KeepTruthy(a) + KeepTruthy(b)
  {
    if a == [] {
      assert a + b == b;
    } else {
      assert (a + b)[1..] == a[1..] + b;
      KeepTruthyAppend(a[1..], b);
    }
  }

  /** One name is kept exactly when it is truthy. */
  lemma KeepTruthyOne(x: string)
    ensures KeepTruthy([x]) == if TruthyString(x) then [x] else []
  {
  }

  /** The configured names: `array_filter(array_map('trim', explode(',', trim($configured))))`. */
  function Candidates(configured: string): (r: seq<string>)
    ensures |r| <= |Split(Trim(configured, PhpTrim), ',')|
    ensures forall x :: x in r ==> TruthyString(x) && ',' !in x
  {
    var parts := Split(Trim(configured, PhpTrim), ',');
    TrimKeepsOut(parts, ',');
    KeepTruthy(TrimAll(parts))
  }

  /** Trimming removes characters, so a character no piece holds is in no trimmed piece. */
  lemma TrimKeepsOut(parts: seq<string>, c: char)
    requires forall p :: p in parts ==> c !in p
    ensures forall x :: x in TrimAll(parts) ==> c !in x
  {
    forall i | 0 <= i < |parts| ensures c !in Trim(parts[i], PhpTrim) {
      assert parts[i] in parts;
      TrimKeepsOutOne(parts[i], c);
    }
  }

  lemma TrimKeepsOutOne(p: string, c: char)
    requires c !in p
    ensures c !in Trim(p, PhpTrim)
  {
    var a, b := TrimSlice(p, PhpTrim);
    var x := Trim(p, PhpTrim);
    forall k | 0 <= k < |x| ensures x[k] != c {
      assert x[k] == p[a + k];
    }
  }

  /** `preg_replace('/^models\//', '', $m)`. */
  function StripModelsPrefix(m: string): (r: string)
    ensures StartsWith(m, "models/") ==> m == "models/" + r
    ensures !StartsWith(m, "models/") ==> r == m
  {
    if StartsWith(m, "models/") then m[7..] else m
  }

  /**
    * The list after the loop has seen `all`: each name, prefix stripped, is
    * appended when it is truthy and not already present.
    */
  function Normalized(all: seq<string>): (r: seq<string>)
    ensures |r| <= |all|
    decreases |all|
  {
    if all == [] then []
    else
      var prev := Normalized(all[..|all| - 1]);
      var m := StripModelsPrefix(all[|all| - 1]);
      if TruthyString(m) && m !in prev then prev + [m] else prev
  }

  predicate NoDuplicates(s: seq<string>) {
    forall i, j :: 0 <= i < j < |s| ==> s[i] != s[j]
  }

  /** `x` is a truthy name that one of `all` becomes once its prefix is stripped. */
  predicate Named(all: seq<string>, x: string) {
    TruthyString(x) && exists i :: 0 <= i < |all| && StripModelsPrefix(all[i]) == x
  }

  /** One more input name adds at most its own stripped form. */
  lemma NamedSnoc(init: seq<string>, y: string, x: string)
    ensures Named(init + [y], x) <==> Named(init, x) || (TruthyString(x) && StripModelsPrefix(y) == x)
  {
    var all := init + [y];
    if Named(all, x) && StripModelsPrefix(y) != x {
      var i :| 0 <= i < |all| && StripModelsPrefix(all[i]) == x;
      assert i < |init| && all[i] == init[i];
    }
    if Named(init, x) {
      var i :| 0 <= i < |init| && StripModelsPrefix(init[i]) == x;
      assert all[i] == init[i];
    }
    if TruthyString(x) && StripModelsPrefix(y) == x {
      assert all[|init|] == y;
    }
  }

  /**
    * The names in the list are exactly the truthy stripped input names, each
    * once and none empty.
    */
  lemma {:induction false} NormalizedMembers(all: seq<string>)
    ensures NoDuplicates(Normalized(all))
    ensures forall x :: x in Normalized(all) ==> TruthyString(x)
    ensures forall x :: x in Normalized(all) <==> Named(all, x)
    decreases |all|
  {
    if all != [] {
      var init := all[..|all| - 1];
      var y := all[|all| - 1];
      assert all == init + [y];
      NormalizedMembers(init);
      forall x ensures x in Normalized(all) <==> Named(all, x) {
        NamedSnoc(init, y, x);
      }
    }
  }

  /** Names seen earlier keep their place: the list for a prefix is a prefix of the list. */
  lemma {:induction false} NormalizedPrefix(a: seq<string>, b: seq<string>)
    ensures |Normalized(a)| <= |Normalized(a + b)|
    ensures Normalized(a + b)[..|Normalized(a)|] == Normalized(a)
    decreases |b|
  {
    if b == [] {
      assert a + b == a;
    } else {
      var init := b[..|b| - 1];
      NormalizedPrefix(a, init);
      assert (a + b)[..|a + b| - 1] == a + init;
    }
  }

  /** The loop of `buildModelFallbackList` over the merged names. */
  method NormalizeNames(all: seq<string>) returns (normalized: seq<string>)
    ensures normalized == Normalized(all)
  {
    normalized := [];
    var i := 0;
    while i < |all|
      invariant 0 <= i <= |all|
      invariant normalized == Normalized(all[..i])
    {
      var m := StripModelsPrefix(all[i]);
      assert all[..i + 1][..i] == all[..i];
      if TruthyString(m) && m !in normalized {
        normalized := normalized + [m];
      }
      i := i + 1;
    }
    assert all[..i] == all;
  }

  /**
    * `buildModelFallbackList($configured)` with the service's fallbacks: no
    * duplicates, no empty names, and the configured names' own list comes first.
    */
  method BuildModelFallbackList(configured: string, fallbacks: seq<string>) returns (normalized: seq<string>)
    ensures normalized == Normalized(Candidates(configured) + fallbacks)
    ensures NoDuplicates(normalized) && forall x :: x in normalized ==> TruthyString(x)
    ensures var head := Normalized(Candidates(configured)); |head| <= |normalized| && normalized[..|head|] == head
  {
    var candidates := Candidates(configured);
    normalized := NormalizeNames(candidates + fallbacks);
    assert NoDuplicates(normalized) && forall x :: x in normalized ==> TruthyString(x) by {
      NormalizedMembers(candidates + fallbacks);
    }
    ghost var head := Normalized(candidates);
    assert |head| <= |normalized| && normalized[..|head|] == head by {
      NormalizedPrefix(candidates, fallbacks);
    }
  }

  /** A duplicate-free list is at least as long as the set of its elements. */
  lemma {:induction false} DistinctCount(s: seq<string>, t: set<string>)
    requires NoDuplicates(s) && forall x :: x in t ==> x in s
    ensures |t| <= |s|
    decreases |s|
  {
    if s != [] {
      var rest := t - {s[|s| - 1]};
      forall x | x in rest ensures x in s[..|s| - 1] {
        var i :| 0 <= i < |s| && s[i] == x;
      }
      DistinctCount(s[..|s| - 1], rest);
    }
  }

  /** The elements of a duplicate-free list are as many as its length. */
  lemma {:induction false} DistinctCard(s: seq<string>)
    requires NoDuplicates(s)
    ensures |set x | x in s| == |s|
    decreases |s|
  {
    if s != [] {
      var init := s[..|s| - 1];
      DistinctCard(init);
      assert (set x | x in s) == (set x | x in init) + {s[|s| - 1]};
      assert s[|s| - 1] !in (set x | x in init);
    }
  }

  /** Fallback names that the normalisation keeps as they are: distinct, truthy, unprefixed. */
  predicate Plain(fallbacks: seq<string>) {
    && NoDuplicates(fallbacks)
    && forall k :: 0 <= k < |fallbacks| ==> TruthyString(fallbacks[k]) && !StartsWith(fallbacks[k], "models/")
  }

  /** Every fallback name starts with `g`, so none carries the `models/` prefix or is falsy. */
  lemma {:induction false} StartsWithG(fallbacks: seq<string>)
    requires forall k :: 0 <= k < |fallbacks| ==> |fallbacks[k]| >= 2 && fallbacks[k][0] == 'g'
    ensures forall k :: 0 <= k < |fallbacks| ==> TruthyString(fallbacks[k]) && !StartsWith(fallbacks[k], "models/")
  {
    forall k | 0 <= k < |fallbacks| ensures TruthyString(fallbacks[k]) && !StartsWith(fallbacks[k], "models/") {
      var f := fallbacks[k];
      assert f != "0" by { assert |f| >= 2; }
      assert !StartsWith(f, "models/") by { assert |f| < 7 || f[..7][0] == 'g'; }
    }
  }

  lemma ChatFallbacksPlain()
    ensures Plain(ChatFallbacks)
  {
    var f := ChatFallbacks;
    assert |f[0]| == 23 && |f[1]| == 16 && |f[2]| == 21;
    assert f[0][0] == 'g' && f[1][0] == 'g' && f[2][0] == 'g';
    StartsWithG(f);
  }

  lemma VisionFallbacksPlain()
    ensures Plain(VisionFallbacks)
  {
    var f := VisionFallbacks;
    assert |f[0]| == 20 && |f[1]| == 16 && |f[2]| == 21 && |f[3]| == 36 && |f[4]| == 23 && |f[5]| == 21;
    assert f[2][7] != f[5][7];
    assert f[0][0] == 'g' && f[1][0] == 'g' && f[2][0] == 'g' && f[3][0] == 'g' && f[4][0] == 'g' && f[5][0] == 'g';
    StartsWithG(f);
  }

  /**
    * Every fallback that is non-empty, distinct from the others and free of a
    * `models/` prefix ends up in the list, so the list is at least as long as
    * the fallbacks.
    */
  lemma {:induction false} FallbacksKept(candidates: seq<string>, fallbacks: seq<string>)
    requires Plain(fallbacks)
    ensures forall f :: f in fallbacks ==> f in Normalized(candidates + fallbacks)
    ensures |fallbacks| <= |Normalized(candidates + fallbacks)|
  {
    var all := candidates + fallbacks;
    NormalizedMembers(all);
    forall k | 0 <= k < |fallbacks| ensures fallbacks[k] in Normalized(all) {
      assert all[|candidates| + k] == fallbacks[k];
    }
    DistinctCard(fallbacks);
    DistinctCount(Normalized(all), set x | x in fallbacks);
  }

  /**
    * The chat list holds the three chat fallbacks and at most one name per
    * configured piece, so its length lies between 3 and the number of pieces plus 3.
    */
  lemma ChatListLength(configured: string)
    ensures var list := Normalized(Candidates(configured) + ChatFallbacks);
      3 <= |list| <= |Split(Trim(configured, PhpTrim), ',')| + 3
  {
    ChatFallbacksPlain();
    FallbacksKept(Candidates(configured), ChatFallbacks);
  }

  /** The vision list holds the six vision fallbacks, so its first two entries always exist. */
  lemma VisionListLength(configured: string)
    ensures |Normalized(Candidates(configured) + VisionFallbacks)| >= 6
  {
    VisionFallbacksPlain();
    FallbacksKept(Candidates(configured), VisionFallbacks);
  }
}
