/**
  * The closet page (`WardrobePage.jsx`): display helpers (`sentenceCase`,
  * `colorToCss`, `pickIcon`), the grouping of items by category with a
  * three-item overview per group, and the page state around deleting and
  * renaming an item.
  */
module WardrobePage {
  import opened Outcomes
  import opened Text
  import Wardrobe
  import PhpArray

  // ----- sentenceCase -----

  /** `sentenceCase(value)`: trimmed, lower-cased, first character upper-cased; `''` when blank. */
  function SentenceCase(v: string): (r: string)
    ensures r == "" <==> AllSpace(v, JsSpace)
    ensures r != "" ==>
      (|r| == |Trim(v, JsSpace)| && r[0] == UpperChar(LowerChar(Trim(v, JsSpace)[0])) && r[1..] == Lower(Trim(v, JsSpace))[1..])
  {
    TrimEmptyIffAllSpace(v, JsSpace);
    var s := Trim(v, JsSpace);
    if s == "" then ""
    else
      var lower := Lower(s);
      [UpperChar(lower[0])] + lower[1..]
  }

  lemma LowerUpper(c: char)
    ensures LowerChar(UpperChar(LowerChar(c))) == LowerChar(c)
  {
  }

  /** Applying `sentenceCase` to its own output changes nothing (category titles are stable). */
  lemma SentenceCaseIdempotent(v: string)
    ensures SentenceCase(SentenceCase(v)) == SentenceCase(v)
  {
    var r := SentenceCase(v);
    if r != "" {
      var s := Trim(v, JsSpace);
      LowerKeepsSpace(s[0], JsSpace);
      LowerKeepsSpace(LowerChar(s[0]), JsSpace);
      LowerKeepsSpace(s[|s| - 1], JsSpace);
      assert !IsSpace(r[0], JsSpace);
      assert !IsSpace(r[|r| - 1], JsSpace);
      TrimNoop(r, JsSpace);
      LowerUpper(s[0]);
      assert Lower(r) == Lower(s);
      TrimEmptyIffAllSpace(r, JsSpace);
    }
  }

  // ----- colorToCss -----

  /** `String(colorName ?? '').trim().toLowerCase()`. */
  function Normalized(v: string): (r: string)
    ensures r == "" <==> AllSpace(v, JsSpace)
    ensures |r| <= |v| && forall i :: 0 <= i < |r| ==> !('A' <= r[i] <= 'Z')
    ensures r == "" || (!IsSpace(r[0], JsSpace) && !IsSpace(r[|r| - 1], JsSpace))
  {
    var t := Trim(v, JsSpace);
    TrimEmptyIffAllSpace(v, JsSpace);
    if t != "" then
      LowerKeepsSpace(t[0], JsSpace);
      LowerKeepsSpace(t[|t| - 1], JsSpace);
      Lower(t)
    else
      Lower(t)
  }

  /** Values that are already CSS colour syntax. */
  predicate CssSyntax(c: string) {
    StartsWith(c, "#") || StartsWith(c, "rgb(") || StartsWith(c, "rgba(") || StartsWith(c, "hsl(") || StartsWith(c, "hsla(")
  }

  /** `c.replace(/\s+/g, '')`. */
  function Squeeze(c: string): (r: string)
    ensures |r| <= |c|
    ensures forall i :: 0 <= i < |r| ==> !IsSpace(r[i], JsSpace)
  {
    if c == [] then []
    else if IsSpace(c[0], JsSpace) then Squeeze(c[1..])
    else [c[0]] + Squeeze(c[1..])
  }

  /** The global replace works piece by piece: squeezing a concatenation squeezes each part. */
  lemma {:induction false} SqueezeAppend(a: string, b: string)
    ensures Squeeze(a + b) == Squeeze(a) + Squeeze(b)
  {
    if a == [] {
      assert a + b == b;
    } else {
      AppendTail(a, b);
      SqueezeAppend(a[1..], b);
    }
  }

  /** One character is dropped exactly when it is whitespace; with the append law this fixes the result. */
  lemma SqueezeOne(x: char)
    ensures Squeeze([x]) == if IsSpace(x, JsSpace) then [] else [x]
  {
  }

  /** The 28 named colours. */
  const Palette: map<string, string> := map[
    "black" := "#111827", "white" := "#ffffff", "gray" := "#9ca3af", "grey" := "#9ca3af",
    "silver" := "#d1d5db", "charcoal" := "#374151", "navy" := "#0f172a", "blue" := "#2563eb",
    "lightblue" := "#60a5fa", "sky" := "#38bdf8", "teal" := "#14b8a6", "green" := "#22c55e",
    "olive" := "#667a2f", "yellow" := "#facc15", "mustard" := "#d4a017", "orange" := "#f97316",
    "red" := "#ef4444", "maroon" := "#7f1d1d", "pink" := "#ec4899", "purple" := "#a855f7",
    "lavender" := "#c4b5fd", "brown" := "#92400e", "tan" := "#d2b48c", "beige" := "#d6c4a8",
    "cream" := "#fff6d5", "nude" := "#e7c3a1", "gold" := "#d4af37", "bronze" := "#b08d57"]

  /** What `map[key]` finds on the object literal besides its own keys: the all-lower-case members of `Object.prototype`. */
  const InheritedKeys: set<string> := {"constructor", "__proto__"}

  /** A result of `colorToCss` as written: a string, or a member inherited from `Object.prototype` (a function or an object). */
  datatype CssValue = CssString(s: string) | Inherited(name: string)

  /** `colorToCss(colorName)` as written: `map[key] || c` on a plain object. */
  function ColorToCssAsWritten(v: string): (r: Option<CssValue>)
    ensures r.None? <==> ColorToCss(v).None?
    ensures r.Some? && r.value.CssString? ==> ColorToCss(v) == Some(r.value.s)
    ensures r.Some? && r.value.Inherited? ==> r.value.name in InheritedKeys && ColorToCss(v) == Some(Normalized(v))
  {
    var c := Normalized(v);
    if c == "" then None
    else if CssSyntax(c) then Some(CssString(c))
    else
      var key := Squeeze(c);
      if key in Palette then Some(CssString(Palette[key]))
      else if key in InheritedKeys then Some(Inherited(key))
      else Some(CssString(c))
  }

  /** `colorToCss` with the lookup restricted to the table's own keys (`Object.hasOwn(map, key)`). */
  function ColorToCss(v: string): (r: Option<string>)
    ensures r.None? <==> AllSpace(v, JsSpace)
  {
    TrimEmptyIffAllSpace(v, JsSpace);
    var c := Normalized(v);
    if c == "" then None
    else if CssSyntax(c) then Some(c)
    else
      var key := Squeeze(c);
      if key in Palette then Some(Palette[key]) else Some(c)
  }

  /** Text already in CSS colour syntax comes back as its trimmed, lower-cased form. */
  lemma ColorToCssSyntax(v: string)
    requires CssSyntax(Normalized(v))
    ensures ColorToCss(v) == Some(Normalized(v))
  {
    CssSyntaxNonEmpty(Normalized(v));
  }

  lemma CssSyntaxNonEmpty(c: string)
    requires CssSyntax(c)
    ensures c != ""
  {
  }

  /**
    * Any other non-blank name is looked up with its whitespace removed: a key
    * of the table gives that table colour, anything else comes back normalised.
    */
  lemma ColorToCssNamed(v: string)
    requires !AllSpace(v, JsSpace) && !CssSyntax(Normalized(v))
    ensures Squeeze(Normalized(v)) in Palette ==> ColorToCss(v) == Some(Palette[Squeeze(Normalized(v))])
    ensures Squeeze(Normalized(v)) !in Palette ==> ColorToCss(v) == Some(Normalized(v))
  {
    TrimEmptyIffAllSpace(v, JsSpace);
  }

  /** A name whose squeezed form is not a key of the table never becomes a table colour unless it already is one. */
  lemma OnlyKeysMapToTable(v: string)
    requires ColorToCss(v).Some? && ColorToCss(v).value in Palette.Values && ColorToCss(v).value != Normalized(v)
    ensures Squeeze(Normalized(v)) in Palette
    ensures ColorToCss(v) == Some(Palette[Squeeze(Normalized(v))])
  {
  }

  lemma {:induction false} SqueezeNoSpace(c: string)
    requires forall i :: 0 <= i < |c| ==> !IsSpace(c[i], JsSpace)
    ensures Squeeze(c) == c
  {
    if c != [] {
      SqueezeNoSpace(c[1..]);
    }
  }

  lemma LowerNoUpper(c: string)
    requires forall i :: 0 <= i < |c| ==> !('A' <= c[i] <= 'Z')
    ensures Lower(c) == c
  {
  }

  /** Lower-case letters and `_` only. */
  predicate Plain(c: string) {
    forall i :: 0 <= i < |c| ==> 'a' <= c[i] <= 'z' || c[i] == '_'
  }

  /** A plain name is its own normal form and its own table key. */
  lemma PlainName(c: string)
    requires c != [] && Plain(c)
    ensures Normalized(c) == c && Squeeze(c) == c
  {
    assert !IsSpace(c[0], JsSpace) && !IsSpace(c[|c| - 1], JsSpace);
    TrimNoop(c, JsSpace);
    LowerNoUpper(c);
    SqueezeNoSpace(c);
  }

  lemma PlainNotCss(c: string)
    requires c != [] && Plain(c)
    ensures !CssSyntax(c)
  {
    assert !StartsWith(c, "#") by { assert c[..1][0] == c[0]; }
    assert !StartsWith(c, "rgb(") && !StartsWith(c, "hsl(") by {
      if |c| >= 4 { assert c[..4][3] == c[3]; }
    }
    assert !StartsWith(c, "rgba(") && !StartsWith(c, "hsla(") by {
      if |c| >= 5 { assert c[..5][4] == c[4]; }
    }
  }

  lemma InheritedNotInPalette()
    ensures forall k :: k in InheritedKeys ==> k !in Palette
  {
  }

  /**
    * A colour named "constructor" (or "__proto__") is looked up on the
    * object's prototype: as written the result is not a string at all, while
    * the intended lookup returns the name itself.
    */
  lemma InheritedKeyFinding(name: string)
    requires name in InheritedKeys
    ensures ColorToCssAsWritten(name) == Some(Inherited(name))
    ensures ColorToCss(name) == Some(name)
  {
    PlainName(name);
    PlainNotCss(name);
    InheritedNotInPalette();
  }

  /** A colour written in hex as the table writes it: `#` and six lower-case hex digits. */
  predicate CleanHex(h: string) {
    |h| == 7 && h[0] == '#' && forall i :: 1 <= i < 7 ==> ('0' <= h[i] <= '9' || 'a' <= h[i] <= 'f')
  }

  lemma PaletteHex(key: string)
    requires key in Palette
    ensures CleanHex(Palette[key])
  {
  }

  lemma NormalizedIdempotent(v: string)
    ensures Normalized(Normalized(v)) == Normalized(v)
  {
    TrimLower(Trim(v, JsSpace), JsSpace);
    TrimIdempotent(v, JsSpace);
    LowerIdempotent(Trim(v, JsSpace));
  }

  /** A table colour is CSS syntax already and comes back unchanged. */
  lemma PaletteFixpoint(key: string)
    requires key in Palette
    ensures ColorToCss(Palette[key]) == Some(Palette[key])
  {
    var h := Palette[key];
    PaletteHex(key);
    assert !IsSpace(h[0], JsSpace) && !IsSpace(h[6], JsSpace);
    TrimNoop(h, JsSpace);
    LowerNoUpper(h);
    assert StartsWith(h, "#") by { assert h[..1] == [h[0]]; }
  }

  /** Every result is a fixed point: feeding a computed CSS colour back in returns it unchanged. */
  lemma ColorToCssFixpoint(v: string)
    requires ColorToCss(v).Some?
    ensures ColorToCss(ColorToCss(v).value) == ColorToCss(v)
  {
    var c := Normalized(v);
    NormalizedIdempotent(v);
    if !CssSyntax(c) && Squeeze(c) in Palette {
      PaletteFixpoint(Squeeze(c));
    }
  }

  /** Letter case does not matter: names that differ only in case map to the same colour. */
  lemma ColorToCssIgnoresCase(v: string, w: string)
    requires Lower(v) == Lower(w)
    ensures ColorToCss(v) == ColorToCss(w)
  {
    TrimLower(v, JsSpace);
    TrimLower(w, JsSpace);
  }

  // ----- pickIcon -----

  datatype Icon = ShoePrints | Socks | PersonDress | Vest | Shirt | UserTie | Mitten | HatCowboy | BagShopping | Glasses | Ring | Gem

  /** One `if (/(a|b|...)/.test(hay)) return icon` line. */
  datatype Rule = Rule(words: seq<string>, icon: Icon)

  /** The rules of `pickIcon`, in the order they are tried. */
  const Rules: seq<Rule> := [
    Rule(["shoe", "sneaker", "boot", "heel", "loafer", "sandal", "slide", "flat"], ShoePrints),
    Rule(["sock", "socks"], Socks),
    Rule(["dress", "gown", "skirt"], PersonDress),
    Rule(["pants", "trouser", "jean", "denim", "short"], Vest),
    Rule(["coat", "jacket", "blazer", "hoodie", "cardigan", "sweater", "outerwear"], Vest),
    Rule(["shirt", "tee", "t-shirt", "top", "blouse", "tank", "camisole"], Shirt),
    Rule(["tie", "suit"], UserTie),
    Rule(["glove", "mitt"], Mitten),
    Rule(["hat", "cap", "beanie"], HatCowboy),
    Rule(["bag", "purse", "handbag", "tote", "backpack"], BagShopping),
    Rule(["glass", "sunglass", "glasses"], Glasses),
    Rule(["ring"], Ring),
    Rule(["necklace", "bracelet", "earring", "jewelry", "jewel"], Gem)]

  /** The text the rules search: `${category} ${label}`, both lower-cased, a missing one as ''. */
  function Hay(name: Option<string>, category: Option<string>): string {
    var c := if category.Some? then category.value else "";
    var l := if name.Some? then name.value else "";
    Lower(c) + " " + Lower(l)
  }

  predicate Matches(rule: Rule, hay: string) {
    exists i :: 0 <= i < |rule.words| && Contains(hay, rule.words[i])
  }

  /** The index of the first rule that matches. */
  function FirstRule(rules: seq<Rule>, hay: string): (r: Option<nat>)
    ensures r.Some? ==> r.value < |rules| && Matches(rules[r.value], hay)
    ensures r.Some? ==> forall j :: 0 <= j < r.value ==> !Matches(rules[j], hay)
    ensures r.None? ==> forall j :: 0 <= j < |rules| ==> !Matches(rules[j], hay)
  {
    if rules == [] then None
    else if Matches(rules[0], hay) then Some(0)
    else match FirstRule(rules[1..], hay)
      case None => None
      case Some(i) => Some(i + 1)
  }

  /** Rule `j` is the first one whose words occur in `hay`. */
  predicate FirstMatch(rules: seq<Rule>, hay: string, j: int) {
    0 <= j < |rules| && Matches(rules[j], hay) && forall k :: 0 <= k < j ==> !Matches(rules[k], hay)
  }

  /** The icon of the first matching rule; the shirt when none matches. */
  function IconBy(rules: seq<Rule>, hay: string): (r: Icon)
    ensures forall j :: FirstMatch(rules, hay, j) ==> r == rules[j].icon
    ensures (forall j :: 0 <= j < |rules| ==> !Matches(rules[j], hay)) ==> r == Shirt
  {
    match FirstRule(rules, hay)
    case Some(i) => rules[i].icon
    case None => Shirt
  }

  /** `pickIcon(item)` as written. */
  function PickIcon(name: Option<string>, category: Option<string>): (r: Icon)
    ensures forall j :: FirstMatch(Rules, Hay(name, category), j) ==> r == Rules[j].icon
    ensures (forall j :: 0 <= j < |Rules| ==> !Matches(Rules[j], Hay(name, category))) ==> r == Shirt
  {
    IconBy(Rules, Hay(name, category))
  }

  /** Shoe words win over everything else, whatever other words the label has. */
  lemma ShoeWordsFirst(name: Option<string>, category: Option<string>)
    requires Matches(Rules[0], Hay(name, category))
    ensures PickIcon(name, category) == ShoePrints
  {
  }

  /** Text that no rule matches gets the shirt icon. */
  lemma ShirtFallback(name: Option<string>, category: Option<string>)
    requires forall j :: 0 <= j < |Rules| ==> !Matches(Rules[j], Hay(name, category))
    ensures PickIcon(name, category) == Shirt
  {
  }

  lemma ContainsInner(s: string, w: string, k: nat, n: nat)
    requires Contains(s, w) && k <= n <= |w|
    ensures Contains(s, w[k..n])
  {
    var i := ContainsWitness(s, w);
    var t := s[i + k..i + k + |w[k..n]|];
    assert |t| == n - k;
    assert forall x :: 0 <= x < n - k ==> t[x] == s[i..i + |w|][k + x];
    ContainsAt(s, w[k..n], i + k);
  }

  /**
    * "earring" is listed with the jewellery words, but every text containing
    * it also contains "ring", whose rule is tried first: as written an
    * earring never gets the gem icon.
    */
  lemma EarringNeverGem(name: Option<string>, category: Option<string>)
    requires Contains(Hay(name, category), "earring")
    ensures PickIcon(name, category) != Gem
  {
    var hay := Hay(name, category);
    ContainsInner(hay, "earring", 3, 7);
    assert "earring"[3..7] == "ring";
    RingMatches(hay);
    FirstMatchAtMost(Rules, hay, 11);
    NoGemUpToRing(FirstRule(Rules, hay).value);
  }

  /** A text containing "ring" matches the ring line. */
  lemma RingMatches(hay: string)
    requires Contains(hay, "ring")
    ensures Matches(Rules[11], hay)
  {
    assert Rules[11].words[0] == "ring";
  }

  /** When rule `k` matches, the first matching rule is `k` or an earlier one. */
  lemma FirstMatchAtMost(rules: seq<Rule>, hay: string, k: nat)
    requires k < |rules| && Matches(rules[k], hay)
    ensures FirstRule(rules, hay).Some? && FirstRule(rules, hay).value <= k
  {
  }

  /** No line up to and including the ring line gives the gem icon. */
  lemma NoGemUpToRing(j: nat)
    requires j <= 11
    ensures Rules[j].icon != Gem
  {
  }

  /** The rules with the jewellery line tried before the ring line. */
  const CorrectedRules: seq<Rule> := Rules[..11] + [Rules[12], Rules[11]]

  /** `pickIcon` with the rule order that lets earrings reach the gem icon. */
  function PickIconCorrected(name: Option<string>, category: Option<string>): (r: Icon)
    ensures forall j :: FirstMatch(CorrectedRules, Hay(name, category), j) ==> r == CorrectedRules[j].icon
    ensures (forall j :: 0 <= j < |CorrectedRules| ==> !Matches(CorrectedRules[j], Hay(name, category))) ==> r == Shirt
  {
    IconBy(CorrectedRules, Hay(name, category))
  }

  /** With the corrected order, an earring that matches no earlier garment word gets the gem icon. */
  lemma EarringIsGem(name: Option<string>, category: Option<string>)
    requires Contains(Hay(name, category), "earring")
    requires forall j :: 0 <= j < 11 ==> !Matches(Rules[j], Hay(name, category))
    ensures PickIconCorrected(name, category) == Gem
  {
    var hay := Hay(name, category);
    assert Matches(CorrectedRules[11], hay) by {
      assert CorrectedRules[11].words[2] == "earring";
    }
    assert forall j :: 0 <= j < 11 ==> CorrectedRules[j] == Rules[j];
  }

  lemma {:induction false} IconBySamePrefix(a: seq<Rule>, b: seq<Rule>, hay: string)
    requires |a| == |b|
    requires forall j :: 0 <= j < |a| ==> Matches(a[j], hay) == Matches(b[j], hay)
    requires forall j :: 0 <= j < |a| && Matches(a[j], hay) ==> a[j].icon == b[j].icon
    ensures IconBy(a, hay) == IconBy(b, hay)
  {
    if a != [] && !Matches(a[0], hay) {
      IconBySamePrefix(a[1..], b[1..], hay);
    }
  }

  /** The correction only affects jewellery: without a jewellery word both orders pick the same icon. */
  lemma CorrectionOnlyJewellery(name: Option<string>, category: Option<string>)
    requires !Matches(Rules[12], Hay(name, category))
    ensures PickIconCorrected(name, category) == PickIcon(name, category)
  {
    var hay := Hay(name, category);
    assert forall j :: 0 <= j < 11 ==> CorrectedRules[j] == Rules[j];
    assert CorrectedRules[11] == Rules[12] && CorrectedRules[12] == Rules[11];
    var i, i' := FirstRule(Rules, hay), FirstRule(CorrectedRules, hay);
    if i.Some? && i.value < 11 {
      assert Matches(CorrectedRules[i.value], hay);
      assert i'.Some? && i'.value == i.value;
    } else if i.Some? {
      assert i.value == 11;
      assert i'.Some? && i'.value == 12;
    } else {
      assert !Matches(CorrectedRules[12], hay);
      assert i'.None?;
    }
  }

  // ----- grouping by category -----

  /** A closet item as the page holds it (`id`, `label`, `category` of the JSON the API returns). */
  datatype PageItem = PageItem(id: int, name: string, category: Option<string>)

  /** `it?.category || 'other'`. */
  function CategoryOf(it: PageItem): (c: string)
    ensures c != ""
  {
    if it.category.Some? && it.category.value != "" then it.category.value else "other"
  }

  /** The items of one category, in list order. */
  function InCategory(items: seq<PageItem>, cat: string): (r: seq<PageItem>)
    ensures |r| <= |items|
    ensures forall x :: x in r <==> x in items && CategoryOf(x) == cat
  {
    if items == [] then []
    else
      var rest := InCategory(items[..|items| - 1], cat);
      var last := items[|items| - 1];
      assert items == items[..|items| - 1] + [last];
      if CategoryOf(last) == cat then rest + [last] else rest
  }

  lemma InCategorySnoc(items: seq<PageItem>, x: PageItem, cat: string)
    ensures InCategory(items + [x], cat) == InCategory(items, cat) + (if CategoryOf(x) == cat then [x] else [])
  {
    assert (items + [x])[..|items|] == items;
  }

  lemma {:induction false} InCategoryNone(items: seq<PageItem>, cat: string)
    requires forall x :: x in items ==> CategoryOf(x) != cat
    ensures InCategory(items, cat) == []
  {
    if items != [] {
      var init := items[..|items| - 1];
      assert forall x :: x in init ==> x in items;
      assert items[|items| - 1] in items;
      InCategoryNone(init, cat);
    }
  }

  function Categories(items: seq<PageItem>): set<string> {
    set x | x in items :: CategoryOf(x)
  }

  /** One `[category, items]` entry of `grouped`. */
  type Group = (string, seq<PageItem>)

  function KeySet(groups: seq<Group>): set<string> {
    set g | g in groups :: g.0
  }

  /** The key order `localeCompare` stands for here: lexicographic on code points (Unicode scalar values). */
  predicate StrLt(a: string, b: string)
    decreases |a|
  {
    if a == [] then b != []
    else b != [] && (a[0] < b[0] || (a[0] == b[0] && StrLt(a[1..], b[1..])))
  }

  lemma {:induction false} StrLtIrreflexive(a: string)
    ensures !StrLt(a, a)
    decreases |a|
  {
    if a != [] {
      StrLtIrreflexive(a[1..]);
    }
  }

  lemma {:induction false} StrLtTotal(a: string, b: string)
    requires a != b
    ensures StrLt(a, b) || StrLt(b, a)
    decreases |a|
  {
    if a != [] && b != [] && a[0] == b[0] {
      assert a == [a[0]] + a[1..] && b == [b[0]] + b[1..];
      StrLtTotal(a[1..], b[1..]);
    }
  }

  lemma {:induction false} StrLtTrans(a: string, b: string, c: string)
    requires StrLt(a, b) && StrLt(b, c)
    ensures StrLt(a, c)
    decreases |a|
  {
    if a != [] && a[0] == b[0] && b[0] == c[0] {
      StrLtTrans(a[1..], b[1..], c[1..]);
    }
  }

  predicate SortedKeys(groups: seq<Group>) {
    forall a, b :: 0 <= a < b < |groups| ==> StrLt(groups[a].0, groups[b].0)
  }

  predicate DistinctKeys(groups: seq<Group>) {
    forall a, b :: 0 <= a < b < |groups| ==> groups[a].0 != groups[b].0
  }

  /** Insert one entry into a sorted list of entries whose keys differ from its key. */
  function InsertGroup(e: Group, sorted: seq<Group>): (r: seq<Group>)
    requires SortedKeys(sorted) && e.0 !in KeySet(sorted)
    ensures SortedKeys(r) && |r| == |sorted| + 1
    ensures forall x :: x in r <==> x == e || x in sorted
  {
    if sorted == [] then [e]
    else if StrLt(e.0, sorted[0].0) then
      assert forall b :: 0 < b < |sorted| ==> StrLt(e.0, sorted[b].0) by {
        forall b | 0 < b < |sorted| {
          StrLtTrans(e.0, sorted[0].0, sorted[b].0);
        }
      }
      [e] + sorted
    else
      assert sorted[0] in sorted;
      StrLtTotal(e.0, sorted[0].0);
      var rest := InsertGroup(e, sorted[1..]);
      assert forall x :: x in rest ==> StrLt(sorted[0].0, x.0) by {
        forall x | x in rest ensures StrLt(sorted[0].0, x.0) {
          if x != e {
            var b :| 0 <= b < |sorted[1..]| && sorted[1..][b] == x;
            assert sorted[b + 1] == x;
          }
        }
      }
      assert forall b :: 0 < b < |rest| + 1 ==> ([sorted[0]] + rest)[b] in rest;
      [sorted[0]] + rest
  }

  /** `.sort((a, b) => a[0].localeCompare(b[0]))` on entries with distinct keys. */
  function SortGroups(groups: seq<Group>): (r: seq<Group>)
    requires DistinctKeys(groups)
    ensures SortedKeys(r) && |r| == |groups|
    ensures forall x :: x in r <==> x in groups
  {
    if groups == [] then []
    else
      var last := groups[|groups| - 1];
      var init := groups[..|groups| - 1];
      assert groups == init + [last];
      var sorted := SortGroups(init);
      assert last.0 !in KeySet(sorted) by {
        forall x | x in sorted ensures x.0 != last.0 {
          var a :| 0 <= a < |init| && init[a] == x;
        }
      }
      InsertGroup(last, sorted)
  }

  /**
    * What `grouped` is for a list of items: one entry per category, keys in
    * ascending order, each entry holding exactly that category's items in
    * list order.
    */
  predicate GroupsOf(items: seq<PageItem>, groups: seq<Group>) {
    && SortedKeys(groups)
    && KeySet(groups) == Categories(items)
    && forall g :: 0 <= g < |groups| ==> groups[g].1 == InCategory(items, groups[g].0)
  }

  function KeyIndex(groups: seq<Group>, key: string): (r: Option<nat>)
    ensures r.Some? ==> r.value < |groups| && groups[r.value].0 == key
    ensures r.None? ==> key !in KeySet(groups)
  {
    if groups == [] then None
    else if groups[0].0 == key then Some(0)
    else match KeyIndex(groups[1..], key)
      case None => None
      case Some(i) => Some(i + 1)
  }

  lemma CategoriesSnoc(items: seq<PageItem>, x: PageItem)
    ensures Categories(items + [x]) == Categories(items) + {CategoryOf(x)}
  {
    assert x in items + [x];
    assert forall y :: y in items + [x] <==> y in items || y == x;
  }

  /** The `Map` after some prefix of the items: distinct keys in first-seen order, each with its items. */
  predicate Bucketed(prefix: seq<PageItem>, byCat: seq<Group>) {
    && DistinctKeys(byCat)
    && KeySet(byCat) == Categories(prefix)
    && forall g :: 0 <= g < |byCat| ==> byCat[g].1 == InCategory(prefix, byCat[g].0)
  }

  /** `byCat.get(cat).push(it)` on an existing key. */
  lemma {:induction false} BucketPush(prefix: seq<PageItem>, it: PageItem, byCat: seq<Group>, g: nat)
    requires Bucketed(prefix, byCat) && g < |byCat| && byCat[g].0 == CategoryOf(it)
    ensures Bucketed(prefix + [it], byCat[g := (CategoryOf(it), byCat[g].1 + [it])])
  {
    var cat := CategoryOf(it);
    var next := byCat[g := (cat, byCat[g].1 + [it])];
    forall k {
      InCategorySnoc(prefix, it, k);
    }
    CategoriesSnoc(prefix, it);
    assert byCat[g] in byCat;
    KeySetUpdate(byCat, g, byCat[g].1 + [it]);
  }

  lemma KeySetUpdate(byCat: seq<Group>, g: nat, v: seq<PageItem>)
    requires g < |byCat|
    ensures KeySet(byCat[g := (byCat[g].0, v)]) == KeySet(byCat)
  {
    var next := byCat[g := (byCat[g].0, v)];
    assert forall j :: 0 <= j < |byCat| ==> next[j].0 == byCat[j].0;
    forall k | k in KeySet(byCat) ensures k in KeySet(next) {
      var j :| 0 <= j < |byCat| && byCat[j].0 == k;
      assert next[j] in next;
    }
    forall k | k in KeySet(next) ensures k in KeySet(byCat) {
      var j :| 0 <= j < |next| && next[j].0 == k;
      assert byCat[j] in byCat;
    }
  }

  /** `byCat.set(cat, [])` followed by the push, for a key not seen before. */
  lemma {:induction false} BucketNew(prefix: seq<PageItem>, it: PageItem, byCat: seq<Group>)
    requires Bucketed(prefix, byCat) && CategoryOf(it) !in KeySet(byCat)
    ensures Bucketed(prefix + [it], byCat + [(CategoryOf(it), [it])])
  {
    var cat := CategoryOf(it);
    var next := byCat + [(cat, [it])];
    forall k {
      InCategorySnoc(prefix, it, k);
    }
    CategoriesSnoc(prefix, it);
    InCategoryNone(prefix, cat);
    assert forall j :: 0 <= j < |byCat| ==> byCat[j] in byCat;
    assert KeySet(next) == KeySet(byCat) + {cat} by {
      assert forall x :: x in next <==> x in byCat || x == (cat, [it]);
    }
  }

  /** The `grouped` memo: bucket the items by category in a `Map`, then sort the entries by key. */
  method Grouped(items: seq<PageItem>) returns (groups: seq<Group>)
    ensures GroupsOf(items, groups)
  {
    var byCat: seq<Group> := [];
    for i := 0 to |items|
      invariant Bucketed(items[..i], byCat)
    {
      var it := items[i];
      var cat := CategoryOf(it);
      assert items[..i + 1] == items[..i] + [it];
      var found := KeyIndex(byCat, cat);
      if found.Some? {
        BucketPush(items[..i], it, byCat, found.value);
        byCat := byCat[found.value := (cat, byCat[found.value].1 + [it])];
      } else {
        BucketNew(items[..i], it, byCat);
        byCat := byCat + [(cat, [it])];
      }
    }
    assert items[..|items|] == items;
    groups := SortGroups(byCat);
    assert KeySet(groups) == KeySet(byCat) by {
      assert forall x :: x in groups <==> x in byCat;
    }
    forall g | 0 <= g < |groups|
      ensures groups[g].1 == InCategory(items, groups[g].0)
    {
      assert groups[g] in byCat;
    }
  }

  lemma KeyHead(b: seq<Group>)
    ensures b != [] ==> b[0].0 in KeySet(b)
  {
    if b != [] {
      assert b[0] in b;
    }
  }

  lemma KeySetTail(a: seq<Group>)
    requires SortedKeys(a) && a != []
    ensures KeySet(a[1..]) == KeySet(a) - {a[0].0}
  {
    StrLtIrreflexive(a[0].0);
    assert forall i :: 0 < i < |a| ==> a[i].0 != a[0].0;
    assert forall x :: x in a <==> x == a[0] || x in a[1..];
    forall x | x in a[1..] ensures x.0 != a[0].0 {
      var i :| 0 <= i < |a[1..]| && a[1..][i] == x;
      assert a[i + 1] == x;
    }
  }

  /** Two key-sorted lists with the same keys list the same keys in the same order. */
  lemma {:induction false} SortedKeysUnique(a: seq<Group>, b: seq<Group>)
    requires SortedKeys(a) && SortedKeys(b) && KeySet(a) == KeySet(b)
    ensures |a| == |b| && forall i :: 0 <= i < |a| ==> a[i].0 == b[i].0
    decreases |a|
  {
    KeyHead(a);
    KeyHead(b);
    if a != [] && b != [] {
      var ka := a[0].0;
      var j :| j in b && j.0 == ka;
      var jb :| 0 <= jb < |b| && b[jb] == j;
      var k :| k in a && k.0 == b[0].0;
      var ka' :| 0 <= ka' < |a| && a[ka'] == k;
      if jb > 0 && ka' > 0 {
        StrLtTrans(ka, b[0].0, ka);
        StrLtIrreflexive(ka);
      }
      assert ka == b[0].0;
      KeySetTail(a);
      KeySetTail(b);
      SortedKeysUnique(a[1..], b[1..]);
      assert forall i :: 0 < i < |a| ==> a[i].0 == a[1..][i - 1].0;
      assert forall i :: 0 < i < |b| ==> b[i].0 == b[1..][i - 1].0;
    } else {
      assert KeySet(a) == {} && KeySet(b) == {};
    }
  }

  /** `grouped` is fully determined by the items: any two lists meeting its description are equal. */
  lemma GroupsUnique(items: seq<PageItem>, a: seq<Group>, b: seq<Group>)
    requires GroupsOf(items, a) && GroupsOf(items, b)
    ensures a == b
  {
    SortedKeysUnique(a, b);
  }

  /** Every item is listed in the entry of its category, and no entry is empty. */
  lemma EveryItemListed(items: seq<PageItem>, groups: seq<Group>)
    requires GroupsOf(items, groups)
    ensures forall x :: x in items ==> exists g :: 0 <= g < |groups| && groups[g].0 == CategoryOf(x) && x in groups[g].1
    ensures forall g :: 0 <= g < |groups| ==> groups[g].1 != []
  {
    forall x | x in items
      ensures exists g :: 0 <= g < |groups| && groups[g].0 == CategoryOf(x) && x in groups[g].1
    {
      assert CategoryOf(x) in KeySet(groups);
      var e :| e in groups && e.0 == CategoryOf(x);
      var g :| 0 <= g < |groups| && groups[g] == e;
      assert x in groups[g].1;
    }
    forall g | 0 <= g < |groups| ensures groups[g].1 != [] {
      assert groups[g] in groups;
      assert groups[g].0 in Categories(items);
      var x :| x in items && CategoryOf(x) == groups[g].0;
      assert x in groups[g].1;
    }
  }

  /** `activeCategoryItems`: the entry `grouped.find` returns for the active category, or nothing. */
  function ActiveItems(groups: seq<Group>, active: Option<string>): seq<PageItem> {
    if active.None? || active.value == "" then []
    else match KeyIndex(groups, active.value)
      case Some(g) => groups[g].1
      case None => []
  }

  /** Opening a category lists exactly that category's items, in list order. */
  lemma ActiveIsCategory(items: seq<PageItem>, groups: seq<Group>, cat: string)
    requires GroupsOf(items, groups) && cat != ""
    ensures ActiveItems(groups, Some(cat)) == InCategory(items, cat)
  {
    if KeyIndex(groups, cat).None? {
      InCategoryNone(items, cat);
    }
  }

  // ----- overview -----

  const OverviewSize := 3

  /** `list.slice(0, 3)`: the items an overview card shows. */
  function Shown(list: seq<PageItem>): (r: seq<PageItem>)
    ensures |r| <= OverviewSize && r <= list
    ensures r == list <==> |list| <= OverviewSize
  {
    if |list| <= OverviewSize then list else list[..OverviewSize]
  }

  /** `list.length > 3`: the "View all" button; it appears exactly when the card leaves items out. */
  predicate ViewAll(list: seq<PageItem>)
    ensures ViewAll(list) <==> Shown(list) != list
  {
    |list| > OverviewSize
  }

  // ----- renaming: client-side validation -----

  /** JavaScript `length`: UTF-16 code units, two for a character outside the Basic Multilingual Plane. */
  function Utf16Length(s: string): (n: nat)
    ensures n >= |s|
    ensures n <= 2 * |s|
  {
    if s == [] then 0 else (if s[0] as int >= 0x1_0000 then 2 else 1) + Utf16Length(s[1..])
  }

  const NameRequired := "Name is required."
  const NameTooLong := "Name must be at most 64 characters."

  /** The checks `saveEdit` makes on the trimmed edit value before sending it. */
  function EditError(v: string): Option<string> {
    var t := Trim(v, JsSpace);
    if t == "" then Some(NameRequired)
    else if Utf16Length(t) > Wardrobe.MaxLabelLength then Some(NameTooLong)
    else None
  }

  /**
    * A name the page lets through also passes the server's checks: the
    * server's trim leaves it as it is (unless it starts or ends with a NUL,
    * which only PHP trims) and it is non-empty and at most 64 characters, so
    * the rename is never refused with 422.
    */
  lemma AcceptedNamePassesServer(v: string, items: seq<Wardrobe.Item>, userId: int, itemId: int)
    requires EditError(v).None?
    requires var t := Trim(v, JsSpace); t[0] != '\0' && t[|t| - 1] != '\0'
    ensures var t := Trim(v, JsSpace);
      Trim(t, PhpTrim) == t && 0 < |t| <= Wardrobe.MaxLabelLength
      && Wardrobe.UpdateOf(items, userId, itemId, PhpArray.Str(t)) != Wardrobe.UpdateRejected(422)
  {
    var t := Trim(v, JsSpace);
    assert !IsSpace(t[0], PhpTrim) && !IsSpace(t[|t| - 1], PhpTrim);
    TrimNoop(t, PhpTrim);
  }

  /** A blank value is refused before any request, and only a blank one gets that message. */
  lemma BlankNameRefused(v: string)
    ensures EditError(v) == Some(NameRequired) <==> AllSpace(v, JsSpace)
  {
    TrimEmptyIffAllSpace(v, JsSpace);
  }

  // ----- list updates -----

  /** `prev.filter((x) => x?.id !== item.id)`. */
  function RemoveById(items: seq<PageItem>, id: int): (r: seq<PageItem>)
    ensures |r| <= |items|
    ensures forall x :: x in r <==> x in items && x.id != id
  {
    if items == [] then []
    else
      var init := items[..|items| - 1];
      var last := items[|items| - 1];
      assert items == init + [last];
      var rest := RemoveById(init, id);
      if last.id != id then rest + [last] else rest
  }

  /** The filter works piece by piece, so the kept items stay in their order. */
  lemma {:induction false} RemoveAppend(a: seq<PageItem>, b: seq<PageItem>, id: int)
    ensures RemoveById(a + b, id) == RemoveById(a, id) + RemoveById(b, id)
  {
    if b == [] {
      assert a + b == a;
    } else {
      var b', l := b[..|b| - 1], b[|b| - 1];
      assert (a + b)[..|a + b| - 1] == a + b' && (a + b)[|a + b| - 1] == l;
      RemoveAppend(a, b', id);
    }
  }

  /** One item is dropped exactly when it has the removed id. */
  lemma RemoveOne(x: PageItem, id: int)
    ensures RemoveById([x], id) == if x.id == id then [] else [x]
  {
    assert [x][..0] == [];
  }

  /** Removing an item changes only its own category's list, by removing it there. */
  lemma {:induction false} RemoveKeepsGroups(items: seq<PageItem>, id: int, cat: string)
    ensures InCategory(RemoveById(items, id), cat) == RemoveById(InCategory(items, cat), id)
  {
    if items != [] {
      var init := items[..|items| - 1];
      var last := items[|items| - 1];
      RemoveKeepsGroups(init, id, cat);
      InCategorySnoc(RemoveById(init, id), last, cat);
      var inCat := InCategory(init, cat);
      assert (inCat + [last])[..|inCat|] == inCat;
    }
  }

  /** `prev.map((x) => (x?.id === updated.id ? { ...x, label: updated.label } : x))`. */
  function RenameById(items: seq<PageItem>, id: int, name: string): (r: seq<PageItem>)
    ensures |r| == |items|
    ensures forall i :: 0 <= i < |items| ==> r[i] == if items[i].id == id then items[i].(name := name) else items[i]
  {
    if items == [] then [] else
      [if items[0].id == id then items[0].(name := name) else items[0]] + RenameById(items[1..], id, name)
  }

  lemma RenameSnoc(items: seq<PageItem>, x: PageItem, id: int, name: string)
    ensures RenameById(items + [x], id, name) == RenameById(items, id, name) + [if x.id == id then x.(name := name) else x]
  {
    var r := RenameById(items + [x], id, name);
    assert forall i :: 0 <= i < |items| ==> (items + [x])[i] == items[i];
  }

  /** Renaming keeps the grouping: every category keeps the same items, in the same places. */
  lemma {:induction false} RenameKeepsGroups(items: seq<PageItem>, id: int, name: string, cat: string)
    ensures InCategory(RenameById(items, id, name), cat) == RenameById(InCategory(items, cat), id, name)
  {
    if items != [] {
      var init := items[..|items| - 1];
      var last := items[|items| - 1];
      var last' := if last.id == id then last.(name := name) else last;
      assert items == init + [last];
      RenameSnoc(init, last, id, name);
      RenameKeepsGroups(init, id, name, cat);
      InCategorySnoc(RenameById(init, id, name), last', cat);
      InCategorySnoc(init, last, cat);
      if CategoryOf(last) == cat {
        RenameSnoc(InCategory(init, cat), last, id, name);
      }
    }
  }

  // ----- the page's state -----

  /** A `fetch` to the items API: a response (status, `message` and `item` of its JSON body), or a thrown error. */
  datatype Fetch = Responded(status: int, message: Option<string>, item: Option<PageItem>) | NetworkError

  /** `res.ok`. */
  predicate Ok(status: int) {
    200 <= status <= 299
  }

  /** `setError(data?.message || fallback)`, with a thrown error showing the fallback. */
  function FailureMessage(res: Fetch, fallback: string): (m: string)
    ensures m != ""
    requires fallback != ""
  {
    if res.Responded? && res.message.Some? && res.message.value != "" then res.message.value else fallback
  }

  const RemoveFailed := "Failed to remove item"
  const RenameFailed := "Failed to rename item"

  /** Whether `removeNow` drops the item: a response that is ok or 204. */
  predicate Removed(res: Fetch) {
    res.Responded? && (Ok(res.status) || res.status == 204)
  }

  class Page {
    var items: seq<PageItem>
    var error: string
    var deletingId: Option<int>
    var editingId: Option<int>
    var editValue: string
    var savingId: Option<int>

    constructor ()
      ensures items == [] && error == "" && editValue == ""
      ensures deletingId.None? && editingId.None? && savingId.None?
    {
      items := [];
      error := "";
      deletingId := None;
      editingId := None;
      editValue := "";
      savingId := None;
    }

    /**
      * The synchronous part of `removeNow`: nothing happens for an item
      * without an id, without a session, or while another removal runs;
      * otherwise the error is cleared and the removal is marked in flight.
      */
    method StartRemove(item: PageItem, configured: bool) returns (started: bool)
      modifies this
      ensures started <==> item.id != 0 && configured && old(deletingId).None?
      ensures started ==> deletingId == Some(item.id) && error == ""
      ensures !started ==> deletingId == old(deletingId) && error == old(error)
      ensures items == old(items) && editingId == old(editingId) && editValue == old(editValue) && savingId == old(savingId)
    {
      started := item.id != 0 && configured && deletingId.None?;
      if started {
        error := "";
        deletingId := Some(item.id);
      }
    }

    /** The rest of `removeNow`, once the request settles. */
    method FinishRemove(item: PageItem, res: Fetch)
      modifies this
      ensures deletingId.None?
      ensures items == if Removed(res) then RemoveById(old(items), item.id) else old(items)
      ensures error == if Removed(res) then old(error) else FailureMessage(res, RemoveFailed)
      ensures editingId == old(editingId) && editValue == old(editValue) && savingId == old(savingId)
    {
      if Removed(res) {
        items := RemoveById(items, item.id);
      } else {
        error := FailureMessage(res, RemoveFailed);
      }
      deletingId := None;
    }

    /** `startEdit(item)`. */
    method StartEdit(item: PageItem)
      modifies this
      ensures error == "" && editingId == Some(item.id) && editValue == item.name
      ensures items == old(items) && deletingId == old(deletingId) && savingId == old(savingId)
    {
      error := "";
      editingId := Some(item.id);
      editValue := item.name;
    }

    /** `cancelEdit()`. */
    method CancelEdit()
      modifies this
      ensures editingId.None? && editValue == ""
      ensures items == old(items) && error == old(error) && deletingId == old(deletingId) && savingId == old(savingId)
    {
      editingId := None;
      editValue := "";
    }

    /**
      * The synchronous part of `saveEdit`: the guards, then the client-side
      * checks; a name that passes them is sent trimmed.
      */
    method StartSave(item: PageItem, configured: bool) returns (sent: Option<string>)
      modifies this
      ensures var guarded := item.id != 0 && configured && old(savingId).None?;
        && (sent.Some? <==> guarded && EditError(old(editValue)).None?)
        && (sent.Some? ==> sent.value == Trim(old(editValue), JsSpace) && savingId == Some(item.id) && error == "")
        && (guarded && sent.None? ==> savingId == old(savingId) && error == EditError(old(editValue)).value)
        && (!guarded ==> savingId == old(savingId) && error == old(error))
      ensures items == old(items) && deletingId == old(deletingId) && editingId == old(editingId) && editValue == old(editValue)
    {
      sent := None;
      if item.id != 0 && configured && savingId.None? {
        var problem := EditError(editValue);
        if problem.Some? {
          error := problem.value;
        } else {
          savingId := Some(item.id);
          error := "";
          sent := Some(Trim(editValue, JsSpace));
        }
      }
    }

    /** The rest of `saveEdit`, once the request settles. */
    method FinishSave(res: Fetch)
      modifies this
      ensures savingId.None? && deletingId == old(deletingId)
      ensures res.Responded? && Ok(res.status) ==>
        && error == old(error) && editingId.None? && editValue == ""
        && items == (if res.item.Some? && res.item.value.id != 0 then RenameById(old(items), res.item.value.id, res.item.value.name) else old(items))
      ensures !(res.Responded? && Ok(res.status)) ==>
        error == FailureMessage(res, RenameFailed) && items == old(items) && editingId == old(editingId) && editValue == old(editValue)
    {
      if res.Responded? && Ok(res.status) {
        var updated := res.item;
        if updated.Some? && updated.value.id != 0 {
          items := RenameById(items, updated.value.id, updated.value.name);
        }
        CancelEdit();
      } else {
        error := FailureMessage(res, RenameFailed);
      }
      savingId := None;
    }
  }
}
