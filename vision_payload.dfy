/**
  * `GeminiVisionService::normalizeVisionPayload`: forces `items` to be an array,
  * turns the five garment categories and the four tag lists into lists of
  * truthy values (order kept), and `description` into a string. Every other
  * key is left as decoded.
  */
module VisionPayload {
  import opened Outcomes
  import opened PhpArray
  import OutfitAnalysis

  const ItemKeys: seq<string> := ["tops", "bottoms", "shoes", "outerwear", "accessories"]
  const TagKeys: seq<string> := ["colors", "patterns", "materials", "style_tags"]

  /** `array_values(array_filter((array) $v))`. */
  function CleanList(v: Value): (r: Value)
    ensures IsList(r)
    ensures CastToList(r) == FilterTruthy(CastToList(v))
    ensures forall x :: x in CastToList(r) ==> Truthy(x)
  {
    var r := ListValue(FilterTruthy(CastToList(v)));
    ListValueRoundTrip(FilterTruthy(CastToList(v)));
    r
  }

  /** A cleaned list is already clean. */
  lemma CleanListIdempotent(v: Value)
    ensures CleanList(CleanList(v)) == CleanList(v)
  {
    var vs := FilterTruthy(CastToList(v));
    ListValueRoundTrip(vs);
    FilterTruthyKeeps(vs);
  }

  /** `data_get($a, $k, [])` for a top-level key: the stored value (null included), or [] when missing. */
  function ValueAt(es: Entries, k: string): Value {
    match Get(es, StrKey(k)) case Some(v) => v case None => Arr([])
  }

  /** `ValueAt` is `data_get` with the default [] on a one-key path. */
  lemma ValueAtIsDataGet(es: Entries, k: string)
    ensures ValueAt(es, k) == DataGetOr(Arr(es), [StrKey(k)], Arr([]))
  {
    DataGetOrKey(es, StrKey(k), Arr([]));
  }

  /** `$a[$k] = array_values(array_filter((array) data_get($a, $k, [])))`. */
  function CleanKey(es: Entries, k: string): (r: Entries)
    ensures Get(r, StrKey(k)) == Some(CleanList(ValueAt(es, k)))
    ensures forall k' :: k' != StrKey(k) ==> Get(r, k') == Get(es, k')
  {
    Set(es, StrKey(k), CleanList(ValueAt(es, k)))
  }

  /** A key holding a clean list. */
  predicate CleanAt(es: Entries, k: string) {
    Get(es, StrKey(k)).Some? && CleanList(Get(es, StrKey(k)).value) == Get(es, StrKey(k)).value
  }

  lemma CleanKeyIsClean(es: Entries, k: string)
    ensures CleanAt(CleanKey(es, k), k)
    ensures CastToList(Get(CleanKey(es, k), StrKey(k)).value) == FilterTruthy(CastToList(ValueAt(es, k)))
  {
    CleanListIdempotent(ValueAt(es, k));
  }

  lemma CleanKeyFixed(es: Entries, k: string)
    requires CleanAt(es, k)
    ensures CleanKey(es, k) == es
  {
    SetExisting(es, StrKey(k));
  }

  /**
    * `r` is `es` with each of `keys` set to the cleaned list of what `es`
    * held there, and every other key as in `es`.
    */
  ghost predicate CleanedFrom(r: Entries, es: Entries, keys: seq<string>) {
    && (forall i :: 0 <= i < |keys| ==> Get(r, StrKey(keys[i])) == Some(CleanList(ValueAt(es, keys[i]))))
    && (forall k': Key :: !(k'.StrKey? && k'.s in keys) ==> Get(r, k') == Get(es, k'))
  }

  /** The `CleanKey` assignments for `keys`, one after the other. */
  function CleanKeys(es: Entries, keys: seq<string>): (r: Entries)
    ensures CleanedFrom(r, es, keys)
    decreases |keys|
  {
    if keys == [] then es
    else
      var es1 := CleanKey(es, keys[0]);
      var r := CleanKeys(es1, keys[1..]);
      CleanKeysStep(es, keys, es1, r);
      r
  }

  /** Cleaning the first key, then the rest, cleans every key from the original values. */
  lemma CleanKeysStep(es: Entries, keys: seq<string>, es1: Entries, r: Entries)
    requires keys != [] && es1 == CleanKey(es, keys[0]) && CleanedFrom(r, es1, keys[1..])
    ensures CleanedFrom(r, es, keys)
  {
    var k0 := keys[0];
    CleanListIdempotent(ValueAt(es, k0));
    forall i | 0 <= i < |keys| ensures Get(r, StrKey(keys[i])) == Some(CleanList(ValueAt(es, keys[i]))) {
      if i > 0 {
        assert keys[i] == keys[1..][i - 1];
        if keys[i] != k0 {
          assert ValueAt(es1, keys[i]) == ValueAt(es, keys[i]);
        }
      } else if k0 in keys[1..] {
        var j :| 0 <= j < |keys[1..]| && keys[1..][j] == k0;
        assert Get(r, StrKey(keys[1..][j])) == Some(CleanList(ValueAt(es1, keys[1..][j])));
      } else {
        assert Get(r, StrKey(k0)) == Get(es1, StrKey(k0));
      }
    }
    forall k': Key | !(k'.StrKey? && k'.s in keys) ensures Get(r, k') == Get(es, k') {
      assert !(k'.StrKey? && k'.s in keys[1..]) && k' != StrKey(k0);
    }
  }

  predicate AllClean(es: Entries, keys: seq<string>) {
    forall i :: 0 <= i < |keys| ==> CleanAt(es, keys[i])
  }

  lemma {:induction false} CleanKeysAreClean(es: Entries, keys: seq<string>)
    ensures AllClean(CleanKeys(es, keys), keys)
    ensures forall i :: 0 <= i < |keys| ==>
      CastToList(Get(CleanKeys(es, keys), StrKey(keys[i])).value) == FilterTruthy(CastToList(ValueAt(es, keys[i])))
    decreases |keys|
  {
    if keys != [] {
      var es1 := CleanKey(es, keys[0]);
      CleanKeysAreClean(es1, keys[1..]);
      var r := CleanKeys(es1, keys[1..]);
      assert CleanAt(r, keys[0]) by {
        CleanKeyIsClean(es, keys[0]);
        if keys[0] in keys[1..] {
          var j :| 0 <= j < |keys[1..]| && keys[0] == keys[1..][j];
          assert CleanAt(r, keys[1..][j]);
        } else {
          assert Get(r, StrKey(keys[0])) == Get(es1, StrKey(keys[0]));
        }
      }
      forall i | 1 <= i < |keys| ensures CleanAt(r, keys[i]) {
        assert keys[i] == keys[1..][i - 1];
      }
    }
  }

  lemma {:induction false} CleanKeysFixed(es: Entries, keys: seq<string>)
    requires AllClean(es, keys)
    ensures CleanKeys(es, keys) == es
    decreases |keys|
  {
    if keys != [] {
      CleanKeyFixed(es, keys[0]);
      assert AllClean(es, keys[1..]) by {
        forall i | 0 <= i < |keys[1..]| ensures CleanAt(es, keys[1..][i]) {
          assert keys[1..][i] == keys[i + 1];
        }
      }
      CleanKeysFixed(es, keys[1..]);
    }
  }

  /** The `items` entries: the decoded ones when `items` is an array, otherwise none. */
  function ItemsOf(es: Entries): Entries {
    match Get(es, StrKey("items"))
    case Some(Arr(ie)) => ie
    case _ => []
  }

  /**
    * `(string) data_get($a, 'description', '')`: "" when the key is missing,
    * `None` when the stored value is an array, whose cast throws.
    */
  function DescriptionOf(es: Entries): (r: Option<string>)
    ensures r.None? <==> Get(es, StrKey("description")).Some? && Get(es, StrKey("description")).value.Arr?
    ensures Get(es, StrKey("description")).None? ==> r == Some("")
    ensures Get(es, StrKey("description")).Some? ==> r == ToPhpString(Get(es, StrKey("description")).value)
  {
    match Get(es, StrKey("description"))
    case Some(v) => ToPhpString(v)
    case None => Some("")
  }

  lemma UntaggedKeys()
    ensures "description" !in TagKeys && "items" !in TagKeys
  {
    assert forall i :: 0 <= i < |TagKeys| ==> 6 <= |TagKeys[i]| <= 10;
  }

  /** The top-level keys `normalizeVisionPayload` writes. */
  predicate Touched(k: Key) {
    k == StrKey("items") || k == StrKey("description") || (k.StrKey? && k.s in TagKeys)
  }

  /**
    * The `items` half: `items` becomes an array (the decoded one, or []) and
    * each garment category in it a clean list. The five nested assignments to
    * `$decoded['items'][...]` each write back the whole `items` array; they are
    * folded into one write of the cleaned `items`, which is the same value.
    */
  function WithCleanItems(es: Entries): (r: Entries)
    ensures ItemsClean(r)
    ensures ItemsFrom(r, es)
    ensures forall k :: k != StrKey("items") ==> Get(r, k) == Get(es, k)
  {
    var items := CleanKeys(ItemsOf(es), ItemKeys);
    CleanKeysAreClean(ItemsOf(es), ItemKeys);
    Set(es, StrKey("items"), Arr(items))
  }

  /** `$decoded['description'] = $d`: the description is the string `d`, every other key unchanged. */
  function Described(es: Entries, d: string): (r: Entries)
    ensures Get(r, StrKey("description")) == Some(Str(d))
    ensures forall k :: k != StrKey("description") ==> Get(r, k) == Get(es, k)
  {
    Set(es, StrKey("description"), Str(d))
  }

  /**
    * `$decoded['description'] = (string) data_get($decoded, 'description', '')`:
    * throws (`None`) exactly when the description is an array; otherwise the
    * description becomes the cast string and nothing else changes.
    */
  function WithDescription(es: Entries): (r: Option<Entries>)
    ensures r.None? <==> Get(es, StrKey("description")).Some? && Get(es, StrKey("description")).value.Arr?
    ensures r.Some? ==> r.value == Described(es, DescriptionOf(es).value)
  {
    match DescriptionOf(es)
    case None => None
    case Some(d) => Some(Described(es, d))
  }

  /**
    * `items` in `r` is the `items` array of `es` (or [] when that is not an
    * array) with each garment category cleaned from its own value.
    */
  ghost predicate ItemsFrom(r: Entries, es: Entries) {
    Get(r, StrKey("items")).Some? && Get(r, StrKey("items")).value.Arr?
    && CleanedFrom(Get(r, StrKey("items")).value.entries, ItemsOf(es), ItemKeys)
  }

  /** Each tag list in `r` is the cleaned list of what `es` held under that key. */
  ghost predicate TagsFrom(r: Entries, es: Entries) {
    forall i :: 0 <= i < |TagKeys| ==> Get(r, StrKey(TagKeys[i])) == Some(CleanList(ValueAt(es, TagKeys[i])))
  }

  /** `items` is an array whose garment categories are clean lists. */
  predicate ItemsClean(es: Entries) {
    Get(es, StrKey("items")).Some? && Get(es, StrKey("items")).value.Arr?
    && AllClean(Get(es, StrKey("items")).value.entries, ItemKeys)
  }

  /** The four tag lists: each becomes a clean list; nothing else changes. */
  function WithCleanTags(es: Entries): (r: Entries)
    ensures AllClean(r, TagKeys)
    ensures CleanedFrom(r, es, TagKeys)
    ensures forall k: Key :: !(k.StrKey? && k.s in TagKeys) ==> Get(r, k) == Get(es, k)
  {
    CleanKeysAreClean(es, TagKeys);
    CleanKeys(es, TagKeys)
  }

  /**
    * `normalizeVisionPayload`: the items, then the four tag lists, then the
    * description, whose cast throws (`None`) when it is an array.
    */
  function NormalizeVisionPayload(es: Entries): (r: Option<Entries>)
    ensures r.None? <==> Get(es, StrKey("description")).Some? && Get(es, StrKey("description")).value.Arr?
    ensures r.Some? ==> ItemsClean(r.value) && ItemsFrom(r.value, es)
    ensures r.Some? ==> AllClean(r.value, TagKeys) && TagsFrom(r.value, es)
    ensures r.Some? ==> Get(r.value, StrKey("description")) == Some(Str(DescriptionOf(es).value))
    ensures r.Some? ==> forall k :: !Touched(k) ==> Get(r.value, k) == Get(es, k)
  {
    var e2 := WithCleanTags(WithCleanItems(es));
    StepsKeepDescription(es);
    match WithDescription(e2)
    case None => None
    case Some(r) =>
      var d := DescriptionOf(e2).value;
      NormalizeSteps(es, d);
      StepsKeepItemsFrom(es, d);
      StepsKeepTagsFrom(es, d);
      Some(r)
  }

  /** The three steps write disjoint keys, so each keeps what the others wrote. */
  lemma NormalizeSteps(es: Entries, d: string)
    ensures var r := Described(WithCleanTags(WithCleanItems(es)), d);
      && ItemsClean(r) && AllClean(r, TagKeys)
      && Get(r, StrKey("description")) == Some(Str(d))
  {
    StepsKeepItems(es, d);
    StepsKeepTags(es, d);
    StepsKeepDescription(es);
  }

  /** The tag and description steps leave `items` as the first step wrote it. */
  lemma StepsKeepItemsFrom(es: Entries, d: string)
    ensures ItemsFrom(Described(WithCleanTags(WithCleanItems(es)), d), es)
  {
    var e1 := WithCleanItems(es);
    var e2 := WithCleanTags(e1);
    UntaggedKeys();
    CleanKeysKeep(e1, TagKeys, StrKey("items"));
    assert Get(Described(e2, d), StrKey("items")) == Get(e2, StrKey("items"));
  }

  /** The tag lists are cleaned from the input's values: the items step does not touch them, the description step keeps them. */
  lemma StepsKeepTagsFrom(es: Entries, d: string)
    ensures TagsFrom(Described(WithCleanTags(WithCleanItems(es)), d), es)
  {
    forall i | 0 <= i < |TagKeys|
      ensures Get(Described(WithCleanTags(WithCleanItems(es)), d), StrKey(TagKeys[i])) == Some(CleanList(ValueAt(es, TagKeys[i])))
    {
      StepsKeepTag(es, d, i);
    }
  }

  lemma StepsKeepTag(es: Entries, d: string, i: nat)
    requires i < |TagKeys|
    ensures Get(Described(WithCleanTags(WithCleanItems(es)), d), StrKey(TagKeys[i])) == Some(CleanList(ValueAt(es, TagKeys[i])))
  {
    var e1 := WithCleanItems(es);
    var e2 := WithCleanTags(e1);
    TagNotItems(es, i);
    TagCleaned(e1, i);
    TagNotDescription(e2, d, i);
  }

  lemma TagNotItems(es: Entries, i: nat)
    requires i < |TagKeys|
    ensures ValueAt(WithCleanItems(es), TagKeys[i]) == ValueAt(es, TagKeys[i])
  {
    UntaggedKeys();
    assert TagKeys[i] in TagKeys;
    ItemsFrame(es, StrKey(TagKeys[i]));
  }

  lemma TagCleaned(e: Entries, i: nat)
    requires i < |TagKeys|
    ensures Get(WithCleanTags(e), StrKey(TagKeys[i])) == Some(CleanList(ValueAt(e, TagKeys[i])))
  {
  }

  lemma TagNotDescription(e: Entries, d: string, i: nat)
    requires i < |TagKeys|
    ensures Get(Described(e, d), StrKey(TagKeys[i])) == Get(e, StrKey(TagKeys[i]))
  {
    UntaggedKeys();
    assert TagKeys[i] in TagKeys;
  }

  lemma StepsKeepItems(es: Entries, d: string)
    ensures ItemsClean(Described(WithCleanTags(WithCleanItems(es)), d))
  {
    var e1 := WithCleanItems(es);
    TagsKeepItems(e1);
    DescriptionKeepsItems(WithCleanTags(e1), d);
  }

  lemma StepsKeepTags(es: Entries, d: string)
    ensures AllClean(Described(WithCleanTags(WithCleanItems(es)), d), TagKeys)
  {
    DescriptionKeepsTags(WithCleanTags(WithCleanItems(es)), d);
  }

  lemma StepsKeepDescription(es: Entries)
    ensures DescriptionOf(WithCleanTags(WithCleanItems(es))) == DescriptionOf(es)
  {
    ItemsKeepDescription(es);
    TagsKeepDescription(WithCleanItems(es));
  }

  lemma ItemsKeepDescription(es: Entries)
    ensures Get(WithCleanItems(es), StrKey("description")) == Get(es, StrKey("description"))
  {
    ItemsFrame(es, StrKey("description"));
  }

  lemma ItemsFrame(es: Entries, k: Key)
    requires k != StrKey("items")
    ensures Get(WithCleanItems(es), k) == Get(es, k)
  {
  }

  lemma TagsKeepItems(e: Entries)
    requires ItemsClean(e)
    ensures ItemsClean(WithCleanTags(e))
  {
    UntaggedKeys();
    assert Get(WithCleanTags(e), StrKey("items")) == Get(e, StrKey("items"));
  }

  lemma TagsKeepDescription(e: Entries)
    ensures Get(WithCleanTags(e), StrKey("description")) == Get(e, StrKey("description"))
  {
    CleanKeysKeep(e, TagKeys, StrKey("description"));
  }

  lemma CleanKeysKeep(es: Entries, keys: seq<string>, k: Key)
    requires !(k.StrKey? && k.s in keys)
    ensures Get(CleanKeys(es, keys), k) == Get(es, k)
  {
  }

  lemma DescriptionKeepsItems(e: Entries, d: string)
    requires ItemsClean(e)
    ensures ItemsClean(Described(e, d))
  {
    assert Get(Described(e, d), StrKey("items")) == Get(e, StrKey("items"));
  }

  lemma DescriptionKeepsTags(e: Entries, d: string)
    requires AllClean(e, TagKeys)
    ensures AllClean(Described(e, d), TagKeys)
  {
    UntaggedKeys();
    forall i | 0 <= i < |TagKeys| ensures CleanAt(Described(e, d), TagKeys[i]) {
      var k := TagKeys[i];
      assert k in TagKeys;
      assert StrKey(k) != StrKey("description");
      assert CleanAt(e, k);
    }
  }

  /** A payload in the shape `normalizeVisionPayload` produces. */
  predicate Normal(es: Entries) {
    && ItemsClean(es)
    && AllClean(es, TagKeys)
    && Get(es, StrKey("description")).Some? && Get(es, StrKey("description")).value.Str?
  }

  /** Normalising a normal payload succeeds and changes nothing. */
  lemma NormalFixed(es: Entries)
    requires Normal(es)
    ensures NormalizeVisionPayload(es) == Some(es)
  {
    var ie := Get(es, StrKey("items")).value.entries;
    assert ItemsOf(es) == ie;
    assert WithCleanItems(es) == es by {
      CleanKeysFixed(ie, ItemKeys);
      SetExisting(es, StrKey("items"));
    }
    assert WithCleanTags(es) == es by {
      CleanKeysFixed(es, TagKeys);
    }
    assert WithDescription(es) == Some(es) by {
      SetExisting(es, StrKey("description"));
    }
  }

  /** `normalizeVisionPayload` is idempotent: normalising its result again succeeds and changes nothing. */
  lemma NormalizeIdempotent(es: Entries)
    requires NormalizeVisionPayload(es).Some?
    ensures NormalizeVisionPayload(NormalizeVisionPayload(es).value) == NormalizeVisionPayload(es)
  {
    NormalFixed(NormalizeVisionPayload(es).value);
  }

  /** An array description makes the normalisation throw, whatever else the payload holds. */
  lemma ArrayDescriptionThrows(es: Entries, v: Entries)
    ensures NormalizeVisionPayload(Set(es, StrKey("description"), Arr(v))).None?
  {
  }

  /** Every list in a normalised payload holds truthy values only. */
  lemma NormalListsTruthy(es: Entries, k: string)
    requires Normal(es) && k in TagKeys
    ensures IsList(Get(es, StrKey(k)).value)
    ensures forall x :: x in CastToList(Get(es, StrKey(k)).value) ==> Truthy(x)
  {
  }

  /** Every garment category of a normalised payload can be counted. */
  lemma NormalItemCounts(es: Entries, i: nat)
    requires Normal(es) && i < |ItemKeys|
    ensures OutfitAnalysis.CountAt(DataGetOr(Arr(es), [StrKey("items")], Arr([])), ItemKeys[i]).Some?
  {
    var items := Get(es, StrKey("items")).value;
    assert DataGetOr(Arr(es), [StrKey("items")], Arr([])) == items;
    CleanCounts(items.entries, ItemKeys[i]);
  }

  /** A clean list can be counted. */
  lemma CleanCounts(es: Entries, key: string)
    requires CleanAt(es, key)
    ensures OutfitAnalysis.CountAt(Arr(es), key).Some?
  {
    var v := Get(es, StrKey(key)).value;
    assert DataGetOr(Arr(es), [StrKey(key)], Arr([])) == v;
    assert v.Arr?;
  }

  /** The scoring heuristic can count every list of a normalised payload: it never throws. */
  lemma NormalHasCounts(es: Entries)
    requires Normal(es)
    ensures OutfitAnalysis.DetectedOf(Arr(es)).Some?
  {
    var items := Get(es, StrKey("items")).value;
    assert DataGetOr(Arr(es), [StrKey("items")], Arr([])) == items;
    assert AllClean(items.entries, ItemKeys);
    assert CleanAt(items.entries, "tops") && CleanAt(items.entries, "bottoms") && CleanAt(items.entries, "shoes")
      && CleanAt(items.entries, "outerwear") && CleanAt(items.entries, "accessories") by {
      assert ItemKeys[0] == "tops" && ItemKeys[1] == "bottoms" && ItemKeys[2] == "shoes";
      assert ItemKeys[3] == "outerwear" && ItemKeys[4] == "accessories";
    }
    CleanCounts(items.entries, "tops");
    CleanCounts(items.entries, "bottoms");
    CleanCounts(items.entries, "shoes");
    CleanCounts(items.entries, "outerwear");
    CleanCounts(items.entries, "accessories");
    assert CleanAt(es, "colors") by {
      assert TagKeys[0] == "colors";
    }
    CleanCounts(es, "colors");
    assert OutfitAnalysis.Countable(Arr(es));
  }
}
