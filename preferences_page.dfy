/**
  * The AI preferences page (`AIPreferencesPage.jsx`): ten sliders whose values
  * live in a `prefs` object persisted to localStorage. Every write goes
  * through `clamp01`; each slider also shows a three-way preset dropdown whose
  * selection is derived from the value by two thresholds (34 and 67).
  */
module PreferencesPage {
  import opened Outcomes
  import opened Text

  // ----- JavaScript numbers and values -----

  /** A JavaScript number, restricted to integers plus the non-finite values. */
  datatype Num = NaN | NegInf | PosInf | Finite(n: int)

  /** A value as `JSON.parse` yields it (objects as maps: key order is not modelled). */
  datatype JsValue =
    | JNull
    | JBool(b: bool)
    | JNum(x: Num)
    | JStr(s: string)
    | JArr(items: seq<JsValue>)
    | JObj(fields: map<string, JsValue>)

  type Prefs = map<string, JsValue>

  /** `x < c` for an integer constant: false whenever `x` is NaN. */
  predicate Below(x: Num, c: int) {
    match x
    case NaN => false
    case NegInf => true
    case PosInf => false
    case Finite(n) => n < c
  }

  /** `x + d` for an integer `d`. */
  function Add(x: Num, d: int): Num {
    match x
    case Finite(n) => Finite(n + d)
    case _ => x
  }

  /** `String(x)` for a number. */
  function NumText(x: Num): string {
    match x
    case NaN => "NaN"
    case NegInf => "-Infinity"
    case PosInf => "Infinity"
    case Finite(n) => IntToString(n)
  }

  /**
    * `String(v)` as `Array.prototype.join` uses it for an element: `null`
    * gives `''`, a nested array is joined again with commas.
    */
  function ElementText(v: JsValue): string {
    match v
    case JNull => ""
    case JBool(b) => if b then "true" else "false"
    case JNum(x) => NumText(x)
    case JStr(s) => s
    case JArr(items) =>
      if items == [] then "" else Join(seq(|items|, i requires 0 <= i < |items| => ElementText(items[i])), ',')
    case JObj(_) => "[object Object]"
  }

  /**
    * `Number(v)`. Strings go through `strNum` (JavaScript's StringToNumber),
    * an array through its comma-joined text; an object is NaN.
    */
  function ToNumber(v: JsValue, strNum: string -> Num): (r: Num)
    ensures v.JArr? ==> r == strNum(ElementText(v))
    ensures v.JObj? ==> r == NaN
    ensures v.JNum? ==> r == v.x
  {
    match v
    case JNull => Finite(0)
    case JBool(b) => Finite(if b then 1 else 0)
    case JNum(x) => x
    case JStr(s) => strNum(s)
    case JArr(_) => strNum(ElementText(v))
    case JObj(_) => NaN
  }

  /**
    * With a StringToNumber that reads `''` as 0 and reads back the text of
    * a number, `Number([])` is 0 and `Number([x])` is `x`.
    */
  lemma ArrayToNumber(x: Num, strNum: string -> Num)
    requires strNum("") == Finite(0) && strNum(NumText(x)) == x
    ensures ToNumber(JArr([]), strNum) == Finite(0)
    ensures ToNumber(JArr([JNum(x)]), strNum) == x
  {
    assert ElementText(JArr([JNum(x)])) == NumText(x);
  }

  /** JavaScript truthiness. */
  predicate JsTruthy(v: JsValue) {
    match v
    case JNull => false
    case JBool(b) => b
    case JNum(x) => x != NaN && x != Finite(0)
    case JStr(s) => s != ""
    case _ => true
  }

  /** `clamp01`: NaN and negatives give 0, values above 100 give 100. */
  function Clamp01(x: Num): (r: Num)
    ensures r.Finite? && 0 <= r.n <= 100
    ensures x == NaN || Below(x, 0) ==> r == Finite(0)
    ensures x == PosInf || (x.Finite? && x.n > 100) ==> r == Finite(100)
    ensures x.Finite? && 0 <= x.n <= 100 ==> r == x
  {
    match x
    case NaN => Finite(0)
    case NegInf => Finite(0)
    case PosInf => Finite(100)
    case Finite(n) => if n < 0 then Finite(0) else if n > 100 then Finite(100) else x
  }

  /** One arrow-key step from an in-range value moves by one and stops at the ends. */
  lemma ArrowStep(n: int, d: int)
    requires 0 <= n <= 100 && (d == 1 || d == -1)
    ensures Clamp01(Add(Finite(n), d)) == Finite(if n + d < 0 then 0 else if n + d > 100 then 100 else n + d)
    ensures Clamp01(Add(Finite(n), d)).n - n in {-1, 0, 1}
  {
  }

  // ----- the ten preference keys -----

  datatype PrefKey = Tone | Strictness | Detail | Creativity | Trendiness | Comfort | Weather | Budget | Formality | Color

  function KeyName(k: PrefKey): string {
    match k
    case Tone => "tone"
    case Strictness => "strictness"
    case Detail => "detail"
    case Creativity => "creativity"
    case Trendiness => "trendiness"
    case Comfort => "comfort"
    case Weather => "weather"
    case Budget => "budget"
    case Formality => "formality"
    case Color => "color"
  }

  /** The `key === '...'` chain shared by `labelFor` and `optionsFor`. */
  function KeyOf(s: string): Option<PrefKey> {
    if s == "tone" then Some(Tone)
    else if s == "strictness" then Some(Strictness)
    else if s == "detail" then Some(Detail)
    else if s == "creativity" then Some(Creativity)
    else if s == "trendiness" then Some(Trendiness)
    else if s == "comfort" then Some(Comfort)
    else if s == "weather" then Some(Weather)
    else if s == "budget" then Some(Budget)
    else if s == "formality" then Some(Formality)
    else if s == "color" then Some(Color)
    else None
  }

  /** Every key name is recognised as its own key, and only key names are recognised. */
  lemma KeyNames(k: PrefKey, s: string)
    ensures KeyOf(KeyName(k)) == Some(k)
    ensures KeyOf(s).Some? ==> KeyName(KeyOf(s).value) == s
  {
  }

  /** The `defaults` object. */
  const Defaults: Prefs := map[
    "tone" := JNum(Finite(60)), "strictness" := JNum(Finite(45)), "detail" := JNum(Finite(55)),
    "creativity" := JNum(Finite(50)), "trendiness" := JNum(Finite(45)), "comfort" := JNum(Finite(55)),
    "weather" := JNum(Finite(70)), "budget" := JNum(Finite(40)), "formality" := JNum(Finite(35)),
    "color" := JNum(Finite(45))]

  // ----- labels and presets -----

  /** Which third of the range a value falls in: below 34, below 67, otherwise (NaN included). */
  function Tier(v: Num): (t: nat)
    ensures t < 3
  {
    if Below(v, 34) then 0 else if Below(v, 67) then 1 else 2
  }

  /** The three labels `labelFor` picks from, per key. */
  function Labels(k: PrefKey): seq<string> {
    match k
    case Tone => ["Direct", "Balanced", "Encouraging"]
    case Strictness => ["Chill", "Honest", "Straightforward"]
    case Detail => ["Short", "Normal", "Very detailed"]
    case Creativity => ["Classic", "Balanced", "Bold"]
    case Trendiness => ["Timeless", "Modern", "Trendy"]
    case Comfort => ["Style first", "Balanced", "Comfort first"]
    case Weather => ["Ignore weather", "Consider", "Prioritize weather"]
    case Budget => ["Budget", "Mid-range", "Premium"]
    case Formality => ["Casual", "Smart casual", "Formal"]
    case Color => ["Neutral", "Balanced", "Colorful"]
  }

  /** `labelFor(key, value)`; `''` for an unknown key. */
  function LabelFor(key: string, v: Num): (r: string)
    ensures r == "" <==> KeyOf(key).None?
    ensures KeyOf(key).Some? && Below(v, 34) ==> r == Labels(KeyOf(key).value)[0]
    ensures KeyOf(key).Some? && !Below(v, 34) && Below(v, 67) ==> r == Labels(KeyOf(key).value)[1]
    ensures KeyOf(key).Some? && !Below(v, 67) ==> r == Labels(KeyOf(key).value)[2]
  {
    match KeyOf(key)
    case None => ""
    case Some(k) => Labels(k)[Tier(v)]
  }

  /** One preset of the dropdown. */
  datatype Choice = Choice(id: string, caption: string, value: int)

  function Choices(k: PrefKey): seq<Choice> {
    match k
    case Tone => [Choice("direct", "Direct", 15), Choice("balanced", "Balanced", 50), Choice("encouraging", "Encouraging", 85)]
    case Strictness => [Choice("chill", "Chill", 15), Choice("honest", "Honest", 50), Choice("straight", "Straightforward", 85)]
    case Detail => [Choice("short", "Short", 15), Choice("normal", "Normal", 50), Choice("detailed", "Very detailed", 85)]
    case Creativity => [Choice("classic", "Classic", 15), Choice("balanced", "Balanced", 50), Choice("bold", "Bold", 85)]
    case Trendiness => [Choice("timeless", "Timeless", 15), Choice("modern", "Modern", 50), Choice("trendy", "Trendy", 85)]
    case Comfort => [Choice("style", "Style first", 15), Choice("balanced", "Balanced", 50), Choice("comfort", "Comfort first", 85)]
    case Weather => [Choice("ignore", "Ignore weather", 15), Choice("consider", "Consider", 50), Choice("prioritize", "Prioritize weather", 85)]
    case Budget => [Choice("budget", "Budget", 15), Choice("mid", "Mid-range", 50), Choice("premium", "Premium", 85)]
    case Formality => [Choice("casual", "Casual", 15), Choice("smart", "Smart casual", 50), Choice("formal", "Formal", 85)]
    case Color => [Choice("neutral", "Neutral", 15), Choice("balanced", "Balanced", 50), Choice("colorful", "Colorful", 85)]
  }

  /** `optionsFor(key)`; `[]` for an unknown key. */
  function OptionsFor(key: string): seq<Choice> {
    match KeyOf(key)
    case None => []
    case Some(k) => Choices(k)
  }

  /** `optionIdFor(key, value)`: the id of the option in the value's third; `''` for an unknown key. */
  function OptionIdFor(key: string, v: Num): (r: string)
    ensures r == "" <==> KeyOf(key).None?
  {
    var opts := OptionsFor(key);
    if |opts| == 0 then ""
    else
      ChoiceIds(KeyOf(key).value);
      if Below(v, 34) then opts[0].id else if Below(v, 67) then opts[1].id else opts[2].id
  }

  /** Every key has three presets, none with an empty id. */
  lemma ChoiceIds(k: PrefKey)
    ensures |Choices(k)| == 3
    ensures forall j :: 0 <= j < 3 ==> Choices(k)[j].id != ""
  {
  }

  /** `options.find((o) => o.id === selectedId)?.caption`. */
  function FindLabel(opts: seq<Choice>, id: string): (r: Option<string>)
    ensures r.Some? ==> exists i :: 0 <= i < |opts| && opts[i].id == id && opts[i].caption == r.value
    ensures r.None? ==> forall i :: 0 <= i < |opts| ==> opts[i].id != id
  {
    if opts == [] then None
    else if opts[0].id == id then Some(opts[0].caption)
    else
      var r := FindLabel(opts[1..], id);
      assert r.Some? ==> exists i :: 0 <= i < |opts| && opts[i].id == id && opts[i].caption == r.value by {
        if r.Some? {
          var i :| 0 <= i < |opts[1..]| && opts[1..][i].id == id && opts[1..][i].caption == r.value;
          assert opts[i + 1] == opts[1..][i];
        }
      }
      r
  }

  /** Each key's three presets are three distinct ids, at values 15, 50 and 85. */
  lemma ChoicesShape(k: PrefKey)
    ensures |Choices(k)| == 3
    ensures Choices(k)[0].id != Choices(k)[1].id && Choices(k)[0].id != Choices(k)[2].id && Choices(k)[1].id != Choices(k)[2].id
    ensures Choices(k)[0].value == 15 && Choices(k)[1].value == 50 && Choices(k)[2].value == 85
  {
  }

  /** The captions of the presets are, in order, the labels `labelFor` uses. */
  lemma CaptionsAreLabels(k: PrefKey)
    ensures |Choices(k)| == |Labels(k)| == 3
    ensures forall j :: 0 <= j < 3 ==> Choices(k)[j].caption == Labels(k)[j]
  {
  }

  /** With no earlier option sharing its id, `find` returns the option's own caption. */
  lemma {:induction false} FindLabelAt(opts: seq<Choice>, t: nat)
    requires t < |opts| && forall j :: 0 <= j < t ==> opts[j].id != opts[t].id
    ensures FindLabel(opts, opts[t].id) == Some(opts[t].caption)
  {
    if t > 0 {
      FindLabelAt(opts[1..], t - 1);
    }
  }

  /** Choosing a preset selects that preset again: every preset value lies in its own third. */
  lemma PresetRoundTrip(k: PrefKey, i: nat)
    requires i < 3
    ensures OptionIdFor(KeyName(k), Finite(Choices(k)[i].value)) == Choices(k)[i].id
  {
    KeyNames(k, KeyName(k));
    ChoicesShape(k);
  }

  /** `OptionIdFor` names the option in the value's third, and `''` exactly for unknown keys. */
  lemma OptionIdTier(key: string, v: Num)
    ensures OptionIdFor(key, v) == if KeyOf(key).None? then "" else Choices(KeyOf(key).value)[Tier(v)].id
  {
    if KeyOf(key).Some? {
      ChoicesShape(KeyOf(key).value);
    }
  }

  /**
    * The dropdown's caption, the label of the selected option, is what
    * `labelFor` says for the same value, for all ten keys and every value.
    */
  lemma DropdownShowsLabel(key: string, v: Num)
    requires KeyOf(key).Some?
    ensures FindLabel(OptionsFor(key), OptionIdFor(key, v)) == Some(LabelFor(key, v))
  {
    var k := KeyOf(key).value;
    ChoicesShape(k);
    OptionIdTier(key, v);
    FindLabelAt(Choices(k), Tier(v));
    CaptionsAreLabels(k);
  }

  // ----- loadPrefs -----

  /** An object spread `{ ...p }` of an array: its indices become string keys. */
  function SpreadOf(p: JsValue): map<string, JsValue> {
    match p
    case JObj(m) => m
    case JArr(vs) =>
      assert forall i: nat, j: nat :: NatToString(i) == NatToString(j) ==> i == j by {
        forall i: nat, j: nat | NatToString(i) == NatToString(j) ensures i == j {
          NatToStringValue(i);
          NatToStringValue(j);
        }
      }
      map i: nat | i < |vs| :: NatToString(i) := vs[i]
    case _ => map[]
  }

  /**
    * `loadPrefs(defaults)`: the stored text (`raw`, `None` when missing) is
    * parsed by `parse` (`None` when `JSON.parse` throws); anything but a
    * truthy object or array yields the defaults, otherwise the stored keys
    * override the defaults.
    */
  function LoadPrefs(raw: Option<string>, parse: string -> Option<JsValue>): (r: Prefs)
    ensures Defaults.Keys <= r.Keys
    ensures raw.None? || raw.value == "" ==> r == Defaults
    ensures r != Defaults ==>
      raw.Some? && raw.value != "" && parse(raw.value).Some? && (parse(raw.value).value.JObj? || parse(raw.value).value.JArr?)
  {
    if raw.None? || raw.value == "" then Defaults
    else match parse(raw.value)
      case None => Defaults
      case Some(p) => if JsTruthy(p) && (p.JObj? || p.JArr?) then Defaults + SpreadOf(p) else Defaults
  }

  /** Missing keys keep their defaults, stored keys win, and nothing else appears. */
  lemma LoadPrefsMerge(raw: string, parse: string -> Option<JsValue>, m: map<string, JsValue>, key: string)
    requires raw != "" && parse(raw) == Some(JObj(m))
    ensures key in LoadPrefs(Some(raw), parse) <==> key in Defaults || key in m
    ensures key in m ==> LoadPrefs(Some(raw), parse)[key] == m[key]
    ensures key !in m && key in Defaults ==> LoadPrefs(Some(raw), parse)[key] == Defaults[key]
  {
  }

  /** A missing, empty, unparsable or non-object store yields exactly the defaults. */
  lemma LoadPrefsFallback(raw: Option<string>, parse: string -> Option<JsValue>)
    requires raw.None? || raw.value == "" || parse(raw.value).None?
      || !(parse(raw.value).value.JObj? || parse(raw.value).value.JArr?)
    ensures LoadPrefs(raw, parse) == Defaults
  {
  }

  // ----- dragging -----

  /**
    * The slider value for a cursor at `clientX` over a track starting at
    * `left` of width `width` (at least 1):
    * `Math.round(min(max(clientX - left, 0), width) / width * 100)`, in exact
    * arithmetic.
    */
  function DragValue(clientX: int, left: int, width: int): (r: int)
    requires width >= 1
    ensures 0 <= r <= 100
    ensures clientX <= left ==> r == 0
    ensures clientX >= left + width ==> r == 100
  {
    var x := if clientX - left < 0 then 0 else if clientX - left > width then width else clientX - left;
    var a, d := 200 * x + width, 2 * width;
    DivBelow(a, d, 101);
    if clientX <= left then
      DivBelow(a, d, 1);
      a / d
    else if clientX >= left + width then
      DivHundred(a, d);
      a / d
    else
      a / d
  }

  /** `a / d == 100` when `100 * d <= a < 101 * d`. */
  lemma DivHundred(a: int, d: int)
    requires d > 0 && 100 * d <= a < 101 * d
    ensures a / d == 100
  {
    var q, r := a / d, a % d;
    assert a == q * d + r && 0 <= r < d;
    if q >= 101 {
      MulLe(101, q, d);
    } else if q <= 99 {
      MulLe(q, 99, d);
    }
  }

  /** `x * d <= y * d` when `x <= y` and `d` is not negative. */
  lemma MulLe(x: int, y: int, d: int)
    requires x <= y && d >= 0
    ensures x * d <= y * d
  {
    assert y * d - x * d == (y - x) * d;
  }

  /** `0 <= a / d < c` when `0 <= a < c * d`. */
  lemma DivBelow(a: int, d: int, c: int)
    requires d > 0 && 0 <= a < c * d
    ensures 0 <= a / d < c
  {
  }

  /** The page's state: `prefs`, the drag record and `document.body.style.userSelect`. */
  class Page {
    var prefs: Prefs
    var dragKey: Option<string>
    var dragLeft: int
    var dragWidth: int
    var prevUserSelect: string
    var lastTouchTs: int
    var bodyUserSelect: string

    /** The drag record's width is at least 1 (it starts at 1 and `beginDrag` stores `Math.max(rect.width, 1)`). */
    predicate Valid()
      reads this
    {
      dragWidth >= 1
    }

    /** `useState(() => loadPrefs(defaults))` and the initial drag record. */
    constructor (raw: Option<string>, parse: string -> Option<JsValue>, userSelect: string)
      ensures Valid()
      ensures prefs == LoadPrefs(raw, parse) && dragKey == None && bodyUserSelect == userSelect
      ensures dragLeft == 0 && dragWidth == 1 && prevUserSelect == "" && lastTouchTs == 0
    {
      prefs := LoadPrefs(raw, parse);
      dragKey := None;
      dragLeft, dragWidth := 0, 1;
      prevUserSelect := "";
      lastTouchTs := 0;
      bodyUserSelect := userSelect;
    }

    /** `setPref(key, value)`: only `key` changes, to `clamp01(value)`. */
    method SetPref(key: string, value: Num)
      modifies this
      ensures prefs == old(prefs)[key := JNum(Clamp01(value))]
      ensures dragKey == old(dragKey) && dragLeft == old(dragLeft) && dragWidth == old(dragWidth)
      ensures prevUserSelect == old(prevUserSelect) && lastTouchTs == old(lastTouchTs) && bodyUserSelect == old(bodyUserSelect)
    {
      prefs := prefs[key := JNum(Clamp01(value))];
    }

    /** ArrowLeft (`right` false) or ArrowRight on slider `key`: `setPref(k, Number(value) ∓ 1)`. */
    method Arrow(key: string, right: bool, strNum: string -> Num)
      modifies this
      ensures var current := if key in old(prefs) then ToNumber(old(prefs)[key], strNum) else NaN;
        prefs == old(prefs)[key := JNum(Clamp01(Add(current, if right then 1 else -1)))]
      ensures dragKey == old(dragKey) && dragLeft == old(dragLeft) && dragWidth == old(dragWidth)
      ensures prevUserSelect == old(prevUserSelect) && lastTouchTs == old(lastTouchTs) && bodyUserSelect == old(bodyUserSelect)
    {
      var current := if key in prefs then ToNumber(prefs[key], strNum) else NaN;
      SetPref(key, Add(current, if right then 1 else -1));
    }

    /** A click on a preset of the dropdown: `setPref(k, o.value)`. */
    method PickPreset(k: PrefKey, i: nat)
      requires i < 3
      modifies this
      ensures prefs == old(prefs)[KeyName(k) := JNum(Finite(Choices(k)[i].value))]
      ensures OptionIdFor(KeyName(k), prefs[KeyName(k)].x) == Choices(k)[i].id
      ensures dragKey == old(dragKey) && dragLeft == old(dragLeft) && dragWidth == old(dragWidth)
      ensures prevUserSelect == old(prevUserSelect) && lastTouchTs == old(lastTouchTs) && bodyUserSelect == old(bodyUserSelect)
    {
      ChoicesShape(k);
      SetPref(KeyName(k), Finite(Choices(k)[i].value));
      PresetRoundTrip(k, i);
    }

    /**
      * `beginDrag`: without a track element nothing happens; otherwise the
      * body's user-select is saved and set to `none`, the drag record names
      * `key`, and the value under the cursor is written.
      */
    method BeginDrag(key: string, hasTrack: bool, left: int, width: int, clientX: int, touch: bool, now: int)
      modifies this
      ensures !hasTrack ==> prefs == old(prefs) && dragKey == old(dragKey) && bodyUserSelect == old(bodyUserSelect)
      ensures !hasTrack ==> dragLeft == old(dragLeft) && dragWidth == old(dragWidth)
      ensures !hasTrack ==> prevUserSelect == old(prevUserSelect) && lastTouchTs == old(lastTouchTs)
      ensures hasTrack ==> Valid()
      ensures hasTrack ==>
        && dragKey == Some(key) && prevUserSelect == old(bodyUserSelect) && bodyUserSelect == "none"
        && dragLeft == left && dragWidth == (if width < 1 then 1 else width)
        && lastTouchTs == (if touch then now else old(lastTouchTs))
        && prefs == old(prefs)[key := JNum(Finite(DragValue(clientX, left, dragWidth)))]
    {
      if !hasTrack {
        return;
      }
      var saved := bodyUserSelect;
      bodyUserSelect := "none";
      dragKey := Some(key);
      dragLeft := left;
      dragWidth := if width < 1 then 1 else width;
      prevUserSelect := saved;
      if touch {
        lastTouchTs := now;
      }
      var next := DragValue(clientX, dragLeft, dragWidth);
      SetPref(key, Finite(next));
    }

    /**
      * `onMouseDown` on a slider's track: only the primary button starts a
      * drag, and not within 800 ms of the last touch start (the mouse event
      * a touch screen emulates after a touch is ignored).
      */
    method MouseDown(key: string, button: int, hasTrack: bool, left: int, width: int, clientX: int, now: int)
      modifies this
      ensures button != 0 || now - old(lastTouchTs) < 800 ==>
        && prefs == old(prefs) && dragKey == old(dragKey) && dragLeft == old(dragLeft) && dragWidth == old(dragWidth)
        && prevUserSelect == old(prevUserSelect) && lastTouchTs == old(lastTouchTs) && bodyUserSelect == old(bodyUserSelect)
      ensures button == 0 && now - old(lastTouchTs) >= 800 && hasTrack ==>
        && Valid() && dragKey == Some(key) && prevUserSelect == old(bodyUserSelect) && bodyUserSelect == "none"
        && dragLeft == left && dragWidth == (if width < 1 then 1 else width) && lastTouchTs == old(lastTouchTs)
        && prefs == old(prefs)[key := JNum(Finite(DragValue(clientX, left, dragWidth)))]
      ensures button == 0 && now - old(lastTouchTs) >= 800 && !hasTrack ==>
        && prefs == old(prefs) && dragKey == old(dragKey) && dragLeft == old(dragLeft) && dragWidth == old(dragWidth)
        && prevUserSelect == old(prevUserSelect) && lastTouchTs == old(lastTouchTs) && bodyUserSelect == old(bodyUserSelect)
    {
      if button != 0 {
        return;
      }
      if now - lastTouchTs < 800 {
        return;
      }
      BeginDrag(key, hasTrack, left, width, clientX, false, now);
    }

    /** `endDrag`: when a drag is active, restore the saved user-select and clear the key. */
    method EndDrag()
      modifies this
      ensures prefs == old(prefs) && dragLeft == old(dragLeft) && dragWidth == old(dragWidth)
      ensures prevUserSelect == old(prevUserSelect) && lastTouchTs == old(lastTouchTs)
      ensures old(dragKey).None? || old(dragKey) == Some("") ==> dragKey == old(dragKey) && bodyUserSelect == old(bodyUserSelect)
      ensures !(old(dragKey).None? || old(dragKey) == Some("")) ==> dragKey == None && bodyUserSelect == old(prevUserSelect)
    {
      if dragKey.None? || dragKey == Some("") {
        return;
      }
      bodyUserSelect := prevUserSelect;
      dragKey := None;
    }

    /**
      * `onMove`: while a drag is active and the event carries a cursor
      * position, the value under the cursor is written to the dragged key;
      * the drag record is left as it is.
      */
    method Move(clientX: Option<int>)
      requires Valid()
      modifies this
      ensures Valid()
      ensures var active := old(dragKey).Some? && old(dragKey).value != "" && clientX.Some?;
        && (active ==> prefs == old(prefs)[old(dragKey).value := JNum(Finite(DragValue(clientX.value, dragLeft, dragWidth)))])
        && (!active ==> prefs == old(prefs))
      ensures dragKey == old(dragKey) && dragLeft == old(dragLeft) && dragWidth == old(dragWidth)
      ensures prevUserSelect == old(prevUserSelect) && lastTouchTs == old(lastTouchTs) && bodyUserSelect == old(bodyUserSelect)
    {
      if dragKey.None? || dragKey == Some("") || clientX.None? {
        return;
      }
      var next := DragValue(clientX.value, dragLeft, dragWidth);
      SetPref(dragKey.value, Finite(next));
    }
  }
}
