/**
  * The outfit scoring heuristic of `OutfitAnalysisService::analyze`: a base of
  * 70, fixed adjustments for completeness, colour count, accessories and
  * outerwear, a clamp to 0..100, and the pros, issues and suggestions that go
  * with each adjustment.
  */
module OutfitAnalysis {
  import opened Outcomes
  import opened PhpArray

  /** The sizes of the lists `analyze` counts. */
  datatype Detected = Detected(tops: nat, bottoms: nat, shoes: nat, outerwear: nat, accessories: nat, colors: nat)

  datatype Analysis = Analysis(score: int, pros: seq<string>, issues: seq<string>, suggestions: seq<string>)

  const CompletePro := "Complete outfit detected (top, bottom, shoes)."
  const IncompleteIssue := "Outfit appears incomplete or some key items were not detected clearly."
  const IncompleteSuggestion := "Try taking a full-body photo with shoes visible and good lighting."
  const CohesivePro := "Color palette seems cohesive."
  const BusyIssue := "Many colors detected; outfit may feel visually busy."
  const BusySuggestion := "Consider limiting the palette to 2-4 main colors."
  const AccessoriesPro := "Accessories detected."
  const OuterwearPro := "Outerwear detected, can add structure to the look."

  const BaseScore := 70

  predicate Complete(d: Detected) { d.tops > 0 && d.bottoms > 0 && d.shoes > 0 }
  predicate Cohesive(d: Detected) { 1 <= d.colors <= 4 }
  predicate Busy(d: Detected) { d.colors > 5 }

  /** How many of the four score-raising rules apply. */
  function PositiveRules(d: Detected): nat {
    (if Complete(d) then 1 else 0) + (if Cohesive(d) then 1 else 0)
    + (if d.accessories > 0 then 1 else 0) + (if d.outerwear > 0 then 1 else 0)
  }

  /** `max(lo, min(hi, x))`. */
  function Clamp(x: int, lo: int, hi: int): (r: int)
    requires lo <= hi
    ensures lo <= r <= hi
    ensures lo <= x <= hi ==> r == x
    ensures x < lo ==> r == lo
    ensures x > hi ==> r == hi
  {
    if x < lo then lo else if x > hi then hi else x
  }

  /**
    * The score as a sum of independent rule contributions. The four
    * contributions together range over -20..20, so the unclamped score lies in
    * 50..90: the clamp to 0..100 never changes it.
    */
  function Score(d: Detected): (s: int)
    ensures 50 <= s <= 90
    ensures s == Clamp(s, 0, 100)
  {
    var completeness := if Complete(d) then 10 else -15;
    var palette := if Cohesive(d) then 5 else if Busy(d) then -5 else 0;
    var extras := (if d.accessories > 0 then 3 else 0) + (if d.outerwear > 0 then 2 else 0);
    BaseScore + completeness + palette + extras
  }

  /**
    * The whole analysis, one rule at a time. The pros record exactly the
    * positive rules that fired, every issue comes with its own suggestion, and
    * the "complete" pro excludes the "incomplete" issue.
    */
  function Evaluate(d: Detected): (a: Analysis)
    ensures a.score == Score(d)
    ensures |a.pros| == PositiveRules(d)
    ensures |a.issues| == |a.suggestions|
    ensures forall i :: 0 <= i < |a.issues| ==>
      (a.issues[i] == IncompleteIssue && a.suggestions[i] == IncompleteSuggestion)
      || (a.issues[i] == BusyIssue && a.suggestions[i] == BusySuggestion)
    ensures (CompletePro in a.pros) <==> (IncompleteIssue !in a.issues)
    ensures (CompletePro in a.pros) <==> Complete(d)
  {
    assert CompletePro != CohesivePro && CompletePro != AccessoriesPro && CompletePro != OuterwearPro;
    assert IncompleteIssue != BusyIssue;
    Analysis(Score(d), Pros(d), Issues(d), Suggestions(d))
  }

  /** The pros, in the order the rules run. */
  function Pros(d: Detected): seq<string> {
    (if Complete(d) then [CompletePro] else [])
    + (if Cohesive(d) then [CohesivePro] else [])
    + (if d.accessories > 0 then [AccessoriesPro] else [])
    + (if d.outerwear > 0 then [OuterwearPro] else [])
  }

  function Issues(d: Detected): seq<string> {
    (if Complete(d) then [] else [IncompleteIssue]) + (if Busy(d) then [BusyIssue] else [])
  }

  function Suggestions(d: Detected): seq<string> {
    (if Complete(d) then [] else [IncompleteSuggestion]) + (if Busy(d) then [BusySuggestion] else [])
  }

  /** `analyze`, step by step as the service does it. */
  method Analyze(d: Detected) returns (a: Analysis)
    ensures a == Evaluate(d)
    ensures 0 <= a.score <= 100
  {
    var score := BaseScore;
    var pros: seq<string> := [];
    var issues: seq<string> := [];
    var suggestions: seq<string> := [];

    if d.tops > 0 && d.bottoms > 0 && d.shoes > 0 {
      score := score + 10;
      pros := pros + [CompletePro];
    } else {
      score := score - 15;
      issues := issues + [IncompleteIssue];
      suggestions := suggestions + [IncompleteSuggestion];
    }
    ghost var pros1 := pros;

    if d.colors >= 1 && d.colors <= 4 {
      score := score + 5;
      pros := pros + [CohesivePro];
    }
    ghost var pros2 := pros;

    if d.colors > 5 {
      score := score - 5;
      issues := issues + [BusyIssue];
      suggestions := suggestions + [BusySuggestion];
    }
    assert issues == Issues(d) && suggestions == Suggestions(d);

    if d.accessories > 0 {
      score := score + 3;
      pros := pros + [AccessoriesPro];
    }
    ghost var pros3 := pros;

    if d.outerwear > 0 {
      score := score + 2;
      pros := pros + [OuterwearPro];
    }
    assert score == Score(d);
    assert pros == Pros(d) by {
      assert pros1 == (if Complete(d) then [CompletePro] else []);
      assert pros2 == pros1 + (if Cohesive(d) then [CohesivePro] else []);
      assert pros3 == pros2 + (if d.accessories > 0 then [AccessoriesPro] else []);
    }

    score := if score < 0 then 0 else if score > 100 then 100 else score;
    a := Analysis(score, pros, issues, suggestions);
  }

  /** Zero colours and exactly five colours leave the score untouched by the palette rules. */
  lemma NoPaletteAdjustment(d: Detected)
    requires d.colors == 0 || d.colors == 5
    ensures Score(d) == BaseScore + (if Complete(d) then 10 else -15)
      + (if d.accessories > 0 then 3 else 0) + (if d.outerwear > 0 then 2 else 0)
    ensures CohesivePro !in Evaluate(d).pros && BusyIssue !in Evaluate(d).issues
  {
  }

  /** Detecting more accessories or outerwear never lowers the score. */
  lemma ExtrasMonotone(d: Detected, e: Detected)
    requires e.tops == d.tops && e.bottoms == d.bottoms && e.shoes == d.shoes && e.colors == d.colors
    requires e.accessories >= d.accessories && e.outerwear >= d.outerwear
    ensures Score(e) >= Score(d)
    ensures |Evaluate(e).pros| >= |Evaluate(d).pros|
  {
  }

  /**
    * The fixture used by the chat tests: one top, one bottom, one pair of shoes
    * and one colour scores 70 + 10 + 5 = 85 with two pros and no issues.
    */
  lemma FixtureScore()
    ensures Evaluate(Detected(1, 1, 1, 0, 0, 1)) == Analysis(85, [CompletePro, CohesivePro], [], [])
  {
  }

  // ----- reading the counts out of the vision payload -----

  /**
    * `count(data_get($items, $key, []))`. A missing key gives the default [] and
    * so 0; a present value that is not an array makes `count()` throw a
    * `TypeError`, modelled as `None`.
    */
  function CountAt(items: Value, key: string): (r: Option<nat>)
    ensures r.Some? <==> DataGetOr(items, [StrKey(key)], Arr([])).Arr?
  {
    match DataGetOr(items, [StrKey(key)], Arr([]))
    case Arr(es) => Some(|es|)
    case _ => None
  }

  /** The list under `key` is an array with at least one element. */
  predicate NonEmptyAt(items: Value, key: string) {
    CountAt(items, key).Some? && CountAt(items, key).value > 0
  }

  /**
    * Every `count()` that `analyze` reaches succeeds. The completeness test is
    * a short-circuit `&&`: `bottoms` is counted only when `tops` is non-empty,
    * and `shoes` only when `bottoms` is too. Colours, accessories and outerwear
    * are always counted.
    */
  predicate Countable(vision: Value) {
    var items := DataGetOr(vision, [StrKey("items")], Arr([]));
    && CountAt(items, "tops").Some?
    && (NonEmptyAt(items, "tops") ==> CountAt(items, "bottoms").Some?)
    && (NonEmptyAt(items, "tops") && NonEmptyAt(items, "bottoms") ==> CountAt(items, "shoes").Some?)
    && CountAt(vision, "colors").Some?
    && CountAt(items, "accessories").Some? && CountAt(items, "outerwear").Some?
  }

  /**
    * The counts `analyze` reads from a vision payload, `None` when a `count()`
    * it reaches would throw. A list the short-circuit never counts is given 0:
    * the completeness test is already false without it.
    */
  function DetectedOf(vision: Value): (r: Option<Detected>)
    ensures r.Some? <==> Countable(vision)
    ensures var items := DataGetOr(vision, [StrKey("items")], Arr([]));
      r.Some? ==>
        && CountAt(items, "tops") == Some(r.value.tops)
        && (NonEmptyAt(items, "tops") ==> CountAt(items, "bottoms") == Some(r.value.bottoms))
        && (NonEmptyAt(items, "tops") && NonEmptyAt(items, "bottoms") ==> CountAt(items, "shoes") == Some(r.value.shoes))
        && CountAt(items, "outerwear") == Some(r.value.outerwear)
        && CountAt(items, "accessories") == Some(r.value.accessories)
        && CountAt(vision, "colors") == Some(r.value.colors)
    ensures var items := DataGetOr(vision, [StrKey("items")], Arr([]));
      r.Some? ==> (Complete(r.value) <==> NonEmptyAt(items, "tops") && NonEmptyAt(items, "bottoms") && NonEmptyAt(items, "shoes"))
  {
    var items := DataGetOr(vision, [StrKey("items")], Arr([]));
    var t := CountAt(items, "tops");
    var b := if NonEmptyAt(items, "tops") then CountAt(items, "bottoms") else Some(0);
    var s := if NonEmptyAt(items, "tops") && NonEmptyAt(items, "bottoms") then CountAt(items, "shoes") else Some(0);
    match (t, b, s, CountAt(items, "outerwear"), CountAt(items, "accessories"), CountAt(vision, "colors"))
    case (Some(t), Some(b), Some(s), Some(o), Some(a), Some(c)) => Some(Detected(t, b, s, o, a, c))
    case _ => None
  }

  /**
    * The short-circuit in practice: with no tops, a `bottoms` that is a string
    * is never counted, and the outfit scores 70 - 15 = 55.
    */
  lemma ShortCircuitSkipsBottoms()
    ensures var v := Arr([(StrKey("items"), Arr([(StrKey("tops"), Arr([])), (StrKey("bottoms"), Str("x"))]))]);
      DetectedOf(v) == Some(Detected(0, 0, 0, 0, 0, 0)) && Evaluate(DetectedOf(v).value).score == 55
  {
    var ie := [(StrKey("tops"), Arr([])), (StrKey("bottoms"), Str("x"))];
    var ve := [(StrKey("items"), Arr(ie))];
    DataGetOrKey(ve, StrKey("items"), Arr([]));
    DataGetOrKey(ve, StrKey("colors"), Arr([]));
    DataGetOrKey(ie, StrKey("tops"), Arr([]));
    DataGetOrKey(ie, StrKey("outerwear"), Arr([]));
    DataGetOrKey(ie, StrKey("accessories"), Arr([]));
    assert CountAt(Arr(ie), "tops") == Some(0);
  }

  /** With a top present, the same string `bottoms` reaches `count()`, which throws. */
  lemma ShortCircuitCountsBottoms()
    ensures DetectedOf(Arr([(StrKey("items"), Arr([(StrKey("tops"), Arr([(IntKey(0), Str("shirt"))])), (StrKey("bottoms"), Str("x"))]))])).None?
  {
    var ie := [(StrKey("tops"), Arr([(IntKey(0), Str("shirt"))])), (StrKey("bottoms"), Str("x"))];
    var ve := [(StrKey("items"), Arr(ie))];
    DataGetOrKey(ve, StrKey("items"), Arr([]));
    DataGetOrKey(ie, StrKey("tops"), Arr([]));
    DataGetOrKey(ie, StrKey("bottoms"), Arr([]));
    assert NonEmptyAt(Arr(ie), "tops");
    assert CountAt(Arr(ie), "bottoms") == None;
  }
}
