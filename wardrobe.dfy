/**
  * `WardrobeItemController`: the per-user closet. Items are deduplicated by a
  * canonical key (lower-cased, trimmed, whitespace-collapsed `name|category`),
  * which a unique index on `(user_id, canonical_key)` enforces in the table.
  * `store` inserts an item unless the user already has its key, `update`
  * renames one item, `destroy` deletes one; every access is scoped to the
  * requesting user.
  */
module Wardrobe {
  import opened Outcomes
  import opened Text
  import opened PhpArray
  import DetectedItems

  const MaxLabelLength := 64

  // ----- canonicalKey -----

  /** `preg_replace('/\s+/', ' ', trim(mb_strtolower($name)))`. */
  function LabelPart(name: string): string {
    CollapseSpaces(Trim(Lower(name), PhpTrim))
  }

  /** The category half: a falsy category (null, "" or "0") counts as "". */
  function CategoryPart(category: Option<string>): string {
    if category.Some? && TruthyString(category.value) then LabelPart(category.value) else ""
  }

  /**
    * `canonicalKey($name, $category)`: the label half, a `|`, then the
    * category half (see `KeyRoundTrip` for splitting it back).
    */
  function CanonicalKey(name: string, category: Option<string>): string {
    LabelPart(name) + "|" + CategoryPart(category)
  }

  /** When the label half holds no `|`, the key splits back at its first `|` into the two halves. */
  lemma KeyRoundTrip(name: string, category: Option<string>)
    requires '|' !in LabelPart(name)
    ensures SplitKey(CanonicalKey(name, category)) == (LabelPart(name), CategoryPart(category))
  {
    SplitJoin(LabelPart(name), CategoryPart(category));
  }

  /** A key cut at its first `|`: the text before it and the text after it. */
  function SplitKey(key: string): (string, string) {
    if key == [] then ("", "")
    else if key[0] == '|' then ("", key[1..])
    else
      var (a, b) := SplitKey(key[1..]);
      ([key[0]] + a, b)
  }

  lemma {:induction false} SplitJoin(a: string, b: string)
    requires '|' !in a
    ensures SplitKey(a + "|" + b) == (a, b)
  {
    var key := a + "|" + b;
    if a != [] {
      assert key[0] == a[0] && a[0] in a;
      assert key[1..] == a[1..] + "|" + b;
      SplitJoin(a[1..], b);
      assert a == [a[0]] + a[1..];
    } else {
      assert key == ['|'] + b;
    }
  }

  /**
    * Two labels whose label halves hold no `|` give the same key exactly when
    * their label halves and their category halves agree.
    */
  lemma KeyDecides(name: string, category: Option<string>, name': string, category': Option<string>)
    requires '|' !in LabelPart(name) && '|' !in LabelPart(name')
    ensures CanonicalKey(name, category) == CanonicalKey(name', category') <==>
      LabelPart(name) == LabelPart(name') && CategoryPart(category) == CategoryPart(category')
  {
    KeyRoundTrip(name, category);
    KeyRoundTrip(name', category');
  }

  /** A null, empty or "0" category gives the key `name|`. */
  lemma FalsyCategory(name: string, category: Option<string>)
    requires category.None? || !TruthyString(category.value)
    ensures CanonicalKey(name, category) == LabelPart(name) + "|"
  {
  }

  /** Lower-casing is idempotent and keeps "", "0" and every other string apart. */
  lemma LowerTruthy(s: string)
    ensures Lower(Lower(s)) == Lower(s)
    ensures TruthyString(Lower(s)) <==> TruthyString(s)
  {
    LowerIdempotent(s);
    if s == "0" {
      assert Lower(s) == "0";
    }
    if Lower(s) == "0" {
      assert |s| == 1 && LowerChar(s[0]) == '0';
    }
  }

  /** Labels and categories that differ only in letter case give the same key. */
  lemma KeyIgnoresCase(name: string, name': string, category: Option<string>, category': Option<string>)
    requires Lower(name) == Lower(name')
    requires category.None? <==> category'.None?
    requires category.Some? ==> Lower(category.value) == Lower(category'.value)
    ensures CanonicalKey(name, category) == CanonicalKey(name', category')
  {
    if category.Some? {
      LowerTruthy(category.value);
      LowerTruthy(category'.value);
      assert TruthyString(category.value) <==> TruthyString(category'.value);
    }
  }

  lemma LowerAppend(a: string, b: string)
    ensures Lower(a + b) == Lower(a) + Lower(b)
  {
  }

  /** No whitespace character is an upper-case letter, so lower-casing keeps a run of whitespace. */
  lemma LowerSpaces(w: string)
    requires AllSpace(w, RegexSpace)
    ensures Lower(w) == w
  {
    forall i | 0 <= i < |w| ensures Lower(w)[i] == w[i] {
      assert IsSpace(w[i], RegexSpace);
    }
  }

  /** The label half of the key for `a`, a whitespace run, then `b`. */
  lemma LabelPartRun(a: string, w: string, b: string)
    requires a != [] && b != []
    requires !IsSpace(a[0], PhpTrim) && !IsSpace(b[|b| - 1], PhpTrim)
    requires !IsSpace(a[|a| - 1], RegexSpace) && !IsSpace(b[0], RegexSpace)
    requires w != [] && AllSpace(w, RegexSpace)
    ensures LabelPart(a + w + b) == CollapseSpaces(Lower(a)) + " " + CollapseSpaces(Lower(b))
  {
    var la, lb := Lower(a), Lower(b);
    LowerAppend(a + w, b);
    LowerAppend(a, w);
    LowerSpaces(w);
    var s := la + w + lb;
    assert Lower(a + w + b) == s;
    LowerKeepsSpace(a[0], PhpTrim);
    LowerKeepsSpace(b[|b| - 1], PhpTrim);
    LowerKeepsSpace(a[|a| - 1], RegexSpace);
    LowerKeepsSpace(b[0], RegexSpace);
    assert s[0] == la[0] && s[|s| - 1] == lb[|lb| - 1];
    TrimNoop(s, PhpTrim);
    CollapseRun(la, w, lb);
  }

  /**
    * The length and kind of a whitespace run inside a label do not matter:
    * `"blue  jeans"` and `"blue\tjeans"` give the key of `"blue jeans"`.
    */
  lemma KeyIgnoresRuns(a: string, w: string, w': string, b: string, category: Option<string>)
    requires a != [] && b != []
    requires !IsSpace(a[0], PhpTrim) && !IsSpace(b[|b| - 1], PhpTrim)
    requires !IsSpace(a[|a| - 1], RegexSpace) && !IsSpace(b[0], RegexSpace)
    requires w != [] && AllSpace(w, RegexSpace) && w' != [] && AllSpace(w', RegexSpace)
    ensures CanonicalKey(a + w + b, category) == CanonicalKey(a + w' + b, category)
  {
    LabelPartRun(a, w, b);
    LabelPartRun(a, w', b);
  }

  // ----- the table -----

  /** One row of `wardrobe_items`. */
  datatype Item = Item(
    id: nat, userId: int, key: string, name: string,
    category: Option<string>, colors: Option<Value>, cover: Option<string>)

  /** The unique index `(user_id, canonical_key)`. */
  predicate UniqueKeys(items: seq<Item>) {
    forall i, j :: 0 <= i < j < |items| && items[i].userId == items[j].userId ==> items[i].key != items[j].key
  }

  /** Auto-increment ids: increasing in table order and below the next one to hand out. */
  predicate IdsOrdered(items: seq<Item>, nextId: nat) {
    && (forall i, j :: 0 <= i < j < |items| ==> items[i].id < items[j].id)
    && (forall i :: 0 <= i < |items| ==> items[i].id < nextId)
  }

  /** Every stored key is the canonical key of the stored name and category. */
  predicate KeysCanonical(items: seq<Item>) {
    forall i :: 0 <= i < |items| ==> items[i].key == CanonicalKey(items[i].name, items[i].category)
  }

  /** The table invariants: the unique index, auto-increment ids and canonical keys. */
  predicate Table(items: seq<Item>, nextId: nat) {
    UniqueKeys(items) && IdsOrdered(items, nextId) && KeysCanonical(items)
  }

  /** The first item of `userId` with key `key`: what `firstOrCreate` finds. */
  function FindKey(items: seq<Item>, userId: int, key: string): (r: Option<nat>)
    ensures r.Some? ==> r.value < |items| && items[r.value].userId == userId && items[r.value].key == key
    ensures r.None? ==> forall i :: 0 <= i < |items| ==> !(items[i].userId == userId && items[i].key == key)
  {
    if items == [] then None
    else if items[0].userId == userId && items[0].key == key then Some(0)
    else match FindKey(items[1..], userId, key)
      case Some(i) => Some(i + 1)
      case None => None
  }

  /** The position of the item with id `id` (route-model binding). */
  function IndexOfId(items: seq<Item>, id: int): (r: Option<nat>)
    ensures r.Some? ==> r.value < |items| && items[r.value].id == id
    ensures r.None? ==> forall i :: 0 <= i < |items| ==> items[i].id != id
  {
    if items == [] then None
    else if items[0].id == id then Some(0)
    else match IndexOfId(items[1..], id)
      case Some(i) => Some(i + 1)
      case None => None
  }

  /** Another item of the same user already has `key` (the duplicate query of `update`). */
  predicate KeyTakenByOther(items: seq<Item>, userId: int, key: string, id: int) {
    exists j :: 0 <= j < |items| && items[j].userId == userId && items[j].key == key && items[j].id != id
  }

  /** The detected item `detected_item_id` names, if the requester owns it. */
  function FindDetected(rows: seq<DetectedItems.Row>, userId: int, id: int): (r: Option<DetectedItems.Row>)
    ensures r.Some? ==> r.value in rows && r.value.source.userId == userId && r.value.id == id
    ensures r.None? ==> forall x :: x in rows ==> !(x.source.userId == userId && x.id == id)
  {
    if rows == [] then None
    else if rows[0].source.userId == userId && rows[0].id == id then Some(rows[0])
    else FindDetected(rows[1..], userId, id)
  }

  /** The fields `store` copies from a detected item: category, colors and cover normalised to null. */
  function DetectedCategory(row: DetectedItems.Row): (c: Option<string>)
    ensures c.Some? ==> TruthyString(c.value)
  {
    if row.category.Some? && TruthyString(row.category.value) then row.category else None
  }

  function DetectedColors(row: DetectedItems.Row): (c: Option<Value>)
    ensures c.Some? ==> c.value.Arr?
  {
    if row.colors.Arr? then Some(row.colors) else None
  }

  function DetectedCover(row: DetectedItems.Row): (c: Option<string>)
    ensures c.Some? ==> c.value != ""
  {
    if row.source.cover == "" then None else Some(row.source.cover)
  }

  /**
    * A store request. `detectedGiven` is whether the raw `detected_item_id`
    * is truthy and `detectedItemId` is its `(int)` cast, so a truthy id that
    * casts to 0 (`"abc"`) is given but finds no row. `name` and `category`
    * are the raw `label` and `category` inputs (`Str("")` and `Null` when absent).
    */
  datatype StoreRequest = StoreRequest(detectedGiven: bool, detectedItemId: int, name: Value, category: Value)

  datatype StoreResponse =
    | StoreRejected(status: int)             // 404 unknown detected item, 422 blank name
    | StoreUncaught(error: string)           // a cast that threw: the framework answers 500
    | Stored(created: bool, item: Item)      // 201 when created, 200 when it already existed
  {
    function Status(): int {
      match this
      case StoreRejected(s) => s
      case StoreUncaught(_) => 500
      case Stored(created, _) => if created then 201 else 200
    }
  }

  datatype UpdateResponse = UpdateRejected(status: int) | UpdateUncaught(error: string) | Updated(item: Item)

  /** `(string) $v` of an input that is no array. */
  function InputText(v: Value): (r: string)
    requires !v.Arr?
    ensures v.Str? ==> r == v.s
    ensures r == "" <==> v == Null || v == Bool(false) || v == Str("")
  {
    ToPhpString(v).value
  }

  /** `$category === null ? null : (string) $category` of an input that is no array. */
  function CategoryInput(v: Value): (r: Option<string>)
    requires !v.Arr?
    ensures r.None? <==> v == Null
    ensures r.Some? ==> r.value == InputText(v)
  {
    if v == Null then None else Some(InputText(v))
  }

  /**
    * What `firstOrCreate` yields on the table `items`: the user's item with
    * the canonical key of `name`/`category` when there is one (not created),
    * otherwise a new item with id `nextId` (created).
    */
  function FindOrNew(items: seq<Item>, nextId: nat, userId: int, name: string, category: Option<string>,
                     colors: Option<Value>, cover: Option<string>): (r: (bool, Item))
    ensures r.1.userId == userId && r.1.key == CanonicalKey(name, category)
    ensures r.0 <==> forall i :: 0 <= i < |items| ==> !(items[i].userId == userId && items[i].key == r.1.key)
    ensures !r.0 ==> r.1 in items
    ensures r.0 ==> r.1 == Item(nextId, userId, r.1.key, name, category, colors, cover)
  {
    var key := CanonicalKey(name, category);
    match FindKey(items, userId, key)
    case Some(i) => (false, items[i])
    case None => (true, Item(nextId, userId, key, name, category, colors, cover))
  }

  /** The response of `store` on the table `items`. */
  function StoreOf(items: seq<Item>, nextId: nat, userId: int, request: StoreRequest, detected: seq<DetectedItems.Row>): (r: StoreResponse)
    ensures r.StoreRejected? ==> r.status in {404, 422}
    ensures r.Stored? ==> r.item.userId == userId
    ensures r == StoreRejected(404) <==> request.detectedGiven && FindDetected(detected, userId, request.detectedItemId).None?
    ensures r.StoreUncaught? <==> !request.detectedGiven && (request.name.Arr? || request.category.Arr?)
    ensures r.StoreUncaught? ==> r.error == ArrayToString
    ensures r == StoreRejected(422) <==>
      !request.detectedGiven && !request.name.Arr? && !request.category.Arr? && AllSpace(InputText(request.name), PhpTrim)
    ensures r.Stored? && !request.detectedGiven ==>
      r.item.key == CanonicalKey(InputText(request.name), CategoryInput(request.category))
  {
    if request.detectedGiven then
      match FindDetected(detected, userId, request.detectedItemId)
      case None => StoreRejected(404)
      case Some(d) =>
        var (created, item) := FindOrNew(items, nextId, userId, d.name, DetectedCategory(d), DetectedColors(d), DetectedCover(d));
        Stored(created, item)
    else if request.name.Arr? || request.category.Arr? then StoreUncaught(ArrayToString)
    else
      var name := InputText(request.name);
      TrimEmptyIffAllSpace(name, PhpTrim);
      if Trim(name, PhpTrim) == "" then StoreRejected(422)
      else
        var (created, item) := FindOrNew(items, nextId, userId, name, CategoryInput(request.category), None, None);
        Stored(created, item)
  }

  /**
    * A truthy `detected_item_id` whose `(int)` cast is 0 (`"abc"`, `"0.0"`,
    * `" "`) takes the detected path and, as row ids start at 1, is answered
    * 404 whatever the label says.
    */
  lemma TruthyZeroIdNotFound(items: seq<Item>, nextId: nat, userId: int, request: StoreRequest, detected: seq<DetectedItems.Row>)
    requires request.detectedGiven && request.detectedItemId == 0
    requires forall x :: x in detected ==> x.id >= 1
    ensures StoreOf(items, nextId, userId, request, detected) == StoreRejected(404)
  {
  }

  /** The item `itemId` exists and belongs to `userId`. */
  predicate Owns(items: seq<Item>, userId: int, itemId: int) {
    IndexOfId(items, itemId).Some? && items[IndexOfId(items, itemId).value].userId == userId
  }

  /** The trimmed label is neither empty nor longer than the limit. */
  predicate LabelOk(name: string) {
    Trim(name, PhpTrim) != "" && |Trim(name, PhpTrim)| <= MaxLabelLength
  }

  /** The key the owned item would get under the new label. */
  function RenamedKey(items: seq<Item>, userId: int, itemId: int, name: string): string
    requires Owns(items, userId, itemId)
  {
    CanonicalKey(Trim(name, PhpTrim), items[IndexOfId(items, itemId).value].category)
  }

  /** The response of `update` on the table `items`. */
  function UpdateOf(items: seq<Item>, userId: int, itemId: int, name: Value): (r: UpdateResponse)
    ensures r.UpdateRejected? ==> r.status in {404, 409, 422}
    ensures r == UpdateRejected(404) <==> IndexOfId(items, itemId).None? || items[IndexOfId(items, itemId).value].userId != userId
    ensures r.UpdateUncaught? <==> Owns(items, userId, itemId) && name.Arr?
    ensures r.UpdateUncaught? ==> r.error == ArrayToString
    ensures r == UpdateRejected(422) <==> Owns(items, userId, itemId) && !name.Arr? && !LabelOk(InputText(name))
    ensures r == UpdateRejected(409) <==>
      && Owns(items, userId, itemId) && !name.Arr? && LabelOk(InputText(name))
      && KeyTakenByOther(items, userId, RenamedKey(items, userId, itemId, InputText(name)), itemId)
    ensures r.Updated? <==>
      && Owns(items, userId, itemId) && !name.Arr? && LabelOk(InputText(name))
      && !KeyTakenByOther(items, userId, RenamedKey(items, userId, itemId, InputText(name)), itemId)
    ensures r.Updated? ==>
      && IndexOfId(items, itemId).Some?
      && var before := items[IndexOfId(items, itemId).value];
      && r.item == before.(name := r.item.name, key := r.item.key)
      && r.item.name == Trim(InputText(name), PhpTrim) && 0 < |r.item.name| <= MaxLabelLength
      && r.item.key == CanonicalKey(r.item.name, r.item.category)
      && !KeyTakenByOther(items, userId, r.item.key, itemId)
  {
    var found := IndexOfId(items, itemId);
    if found.None? || items[found.value].userId != userId then UpdateRejected(404)
    else if name.Arr? then UpdateUncaught(ArrayToString)
    else
      var trimmed := Trim(InputText(name), PhpTrim);
      if trimmed == "" || |trimmed| > MaxLabelLength then UpdateRejected(422)
      else
        var item := items[found.value];
        var key := CanonicalKey(trimmed, item.category);
        if KeyTakenByOther(items, userId, key, itemId) then UpdateRejected(409)
        else Updated(item.(name := trimmed, key := key))
  }

  class WardrobeTable {
    var items: seq<Item>
    var nextId: nat

    predicate Valid()
      reads this
    {
      Table(items, nextId)
    }

    constructor ()
      ensures Valid() && items == []
    {
      items := [];
      nextId := 1;
    }

    /** `WardrobeItem::firstOrCreate(['user_id', 'canonical_key'], attributes)`. */
    method FirstOrCreate(userId: int, name: string, category: Option<string>, colors: Option<Value>, cover: Option<string>)
      returns (created: bool, item: Item)
      requires Valid()
      modifies this
      ensures Valid()
      ensures (created, item) == FindOrNew(old(items), old(nextId), userId, name, category, colors, cover)
      ensures items == if created then old(items) + [item] else old(items)
      ensures nextId == if created then old(nextId) + 1 else old(nextId)
    {
      var key := CanonicalKey(name, category);
      var found := FindKey(items, userId, key);
      if found.Some? {
        return false, items[found.value];
      }
      item := Item(nextId, userId, key, name, category, colors, cover);
      InsertKeeps(items, nextId, item);
      items := items + [item];
      nextId := nextId + 1;
      created := true;
    }

    /**
      * `store`: from a detected item the requester owns (404 otherwise), or
      * from a manual label (an array label or category throws, a blank label
      * is 422). Either way the user's existing
      * item with the same key is returned unchanged, or a new one is added.
      */
    method Store(userId: int, request: StoreRequest, detected: seq<DetectedItems.Row>) returns (r: StoreResponse)
      requires Valid()
      modifies this
      ensures Valid()
      ensures r == StoreOf(old(items), old(nextId), userId, request, detected)
      ensures items == if r.Stored? && r.created then old(items) + [r.item] else old(items)
      ensures nextId == if r.Stored? && r.created then old(nextId) + 1 else old(nextId)
    {
      if request.detectedGiven {
        var row := FindDetected(detected, userId, request.detectedItemId);
        if row.None? {
          return StoreRejected(404);
        }
        var d := row.value;
        var created, item := FirstOrCreate(userId, d.name, DetectedCategory(d), DetectedColors(d), DetectedCover(d));
        return Stored(created, item);
      }
      if request.name.Arr? || request.category.Arr? {
        return StoreUncaught(ArrayToString);
      }
      var name := InputText(request.name);
      if Trim(name, PhpTrim) == "" {
        return StoreRejected(422);
      }
      var created, item := FirstOrCreate(userId, name, CategoryInput(request.category), None, None);
      r := Stored(created, item);
    }

    /**
      * `update`: rename one of the requester's items. 404 for a missing or
      * foreign item, the cast error for an array label, 422 for a blank or
      * over-long label, 409 when another of
      * the user's items has the new key; otherwise only the label and key of
      * that item change.
      */
    method Update(userId: int, itemId: int, name: Value) returns (r: UpdateResponse)
      requires Valid()
      modifies this
      ensures Valid() && nextId == old(nextId)
      ensures r == UpdateOf(old(items), userId, itemId, name)
      ensures items == if r.Updated? then old(items)[IndexOfId(old(items), itemId).value := r.item] else old(items)
    {
      var found := IndexOfId(items, itemId);
      if found.None? || items[found.value].userId != userId {
        return UpdateRejected(404);
      }
      if name.Arr? {
        return UpdateUncaught(ArrayToString);
      }
      var i := found.value;
      var trimmed := Trim(InputText(name), PhpTrim);
      if trimmed == "" || |trimmed| > MaxLabelLength {
        return UpdateRejected(422);
      }
      var category := if items[i].category.Some? && TruthyString(items[i].category.value) then items[i].category else None;
      var key := CanonicalKey(trimmed, category);
      assert key == CanonicalKey(trimmed, items[i].category);
      if KeyTakenByOther(items, userId, key, itemId) {
        return UpdateRejected(409);
      }
      var item := items[i].(name := trimmed, key := key);
      RenameKeeps(items, nextId, i, item);
      items := items[i := item];
      r := Updated(item);
    }

    /** `destroy`: 404 for a missing or foreign item, otherwise that item goes and 204. */
    method Destroy(userId: int, itemId: int) returns (status: int)
      requires Valid()
      modifies this
      ensures Valid() && nextId == old(nextId)
      ensures var found := IndexOfId(old(items), itemId);
        if found.None? || old(items)[found.value].userId != userId then status == 404 && items == old(items)
        else status == 204 && items == old(items)[..found.value] + old(items)[found.value + 1..]
    {
      var found := IndexOfId(items, itemId);
      if found.None? || items[found.value].userId != userId {
        return 404;
      }
      var i := found.value;
      RemovalKeeps(items, nextId, i);
      items := items[..i] + items[i + 1..];
      status := 204;
    }
  }

  /** Inserting an item with a fresh key and the next id keeps the table well-formed. */
  lemma InsertKeeps(items: seq<Item>, nextId: nat, item: Item)
    requires Table(items, nextId)
    requires item.id == nextId && item.key == CanonicalKey(item.name, item.category)
    requires FindKey(items, item.userId, item.key).None?
    ensures Table(items + [item], nextId + 1)
  {
    InsertUnique(items, item);
    InsertIds(items, nextId, item);
    InsertCanonical(items, item);
  }

  lemma InsertUnique(items: seq<Item>, item: Item)
    requires UniqueKeys(items)
    requires forall i :: 0 <= i < |items| ==> !(items[i].userId == item.userId && items[i].key == item.key)
    ensures UniqueKeys(items + [item])
  {
    SnocIndex(items, item);
  }

  lemma InsertIds(items: seq<Item>, nextId: nat, item: Item)
    requires IdsOrdered(items, nextId) && item.id == nextId
    ensures IdsOrdered(items + [item], nextId + 1)
  {
    SnocIndex(items, item);
  }

  lemma InsertCanonical(items: seq<Item>, item: Item)
    requires KeysCanonical(items) && item.key == CanonicalKey(item.name, item.category)
    ensures KeysCanonical(items + [item])
  {
    SnocIndex(items, item);
  }

  /** Appending keeps every index of the prefix and puts the new element last. */
  lemma SnocIndex<T>(s: seq<T>, x: T)
    ensures forall k :: 0 <= k < |s| ==> (s + [x])[k] == s[k]
    ensures (s + [x])[|s|] == x && |s + [x]| == |s| + 1
  {
  }

  /** Renaming an item to a key no other item of its user has keeps the table well-formed. */
  lemma RenameKeeps(items: seq<Item>, nextId: nat, i: nat, item: Item)
    requires Table(items, nextId) && i < |items|
    requires item.id == items[i].id && item.userId == items[i].userId
    requires item.key == CanonicalKey(item.name, item.category)
    requires !KeyTakenByOther(items, item.userId, item.key, item.id)
    ensures Table(items[i := item], nextId)
  {
    var t := items[i := item];
    forall j, k | 0 <= j < k < |t| && t[j].userId == t[k].userId ensures t[j].key != t[k].key {
      if j == i {
        assert items[k].id != item.id;
      } else if k == i {
        assert items[j].id != item.id;
      }
    }
  }

  /** Where the rows of a table with row `i` deleted come from. */
  lemma RemoveAtIndex(items: seq<Item>, i: nat)
    requires i < |items|
    ensures var rest := items[..i] + items[i + 1..];
      |rest| == |items| - 1 && forall k :: 0 <= k < |rest| ==> rest[k] == items[if k < i then k else k + 1]
  {
  }

  lemma RemoveUnique(items: seq<Item>, i: nat)
    requires UniqueKeys(items) && i < |items|
    ensures UniqueKeys(items[..i] + items[i + 1..])
  {
    var rest := items[..i] + items[i + 1..];
    RemoveAtIndex(items, i);
    forall j, k | 0 <= j < k < |rest| && rest[j].userId == rest[k].userId ensures rest[j].key != rest[k].key {
      assert rest[j] == items[if j < i then j else j + 1];
      assert rest[k] == items[if k < i then k else k + 1];
    }
  }

  lemma RemoveIds(items: seq<Item>, nextId: nat, i: nat)
    requires IdsOrdered(items, nextId) && i < |items|
    ensures IdsOrdered(items[..i] + items[i + 1..], nextId)
  {
    var rest := items[..i] + items[i + 1..];
    RemoveAtIndex(items, i);
    forall j, k | 0 <= j < k < |rest| ensures rest[j].id < rest[k].id {
      assert rest[j] == items[if j < i then j else j + 1];
      assert rest[k] == items[if k < i then k else k + 1];
    }
  }

  lemma RemoveCanonical(items: seq<Item>, i: nat)
    requires KeysCanonical(items) && i < |items|
    ensures KeysCanonical(items[..i] + items[i + 1..])
  {
    RemoveAtIndex(items, i);
  }

  /** Deleting a row keeps the table well-formed and removes exactly the row with that id. */
  lemma RemovalKeeps(items: seq<Item>, nextId: nat, i: nat)
    requires Table(items, nextId) && i < |items|
    ensures var rest := items[..i] + items[i + 1..];
      Table(rest, nextId) && (forall x :: x in rest <==> x in items && x.id != items[i].id)
  {
    RemoveUnique(items, i);
    RemoveIds(items, nextId, i);
    RemoveCanonical(items, i);
    RemoveMembers(items, nextId, i);
  }

  lemma RemoveMembers(items: seq<Item>, nextId: nat, i: nat)
    requires IdsOrdered(items, nextId) && i < |items|
    ensures var rest := items[..i] + items[i + 1..];
      forall x :: x in rest <==> x in items && x.id != items[i].id
  {
    var rest := items[..i] + items[i + 1..];
    forall x | x in rest ensures x in items && x.id != items[i].id {
      InRemoved(items, i, x);
      var k :| 0 <= k < |items| && k != i && items[k] == x;
      if k < i {
        assert items[k].id < items[i].id;
      } else {
        assert items[i].id < items[k].id;
      }
    }
    forall x | x in items && x.id != items[i].id ensures x in rest {
      var k :| 0 <= k < |items| && items[k] == x;
      KeptInRemoved(items, i, k);
    }
  }

  /** An element left after deleting position `i` comes from another position. */
  lemma InRemoved<T>(s: seq<T>, i: nat, x: T)
    requires i < |s| && x in s[..i] + s[i + 1..]
    ensures exists k :: 0 <= k < |s| && k != i && s[k] == x
  {
    var rest := s[..i] + s[i + 1..];
    var k :| 0 <= k < |rest| && rest[k] == x;
    if k < i {
      assert s[k] == x;
    } else {
      assert s[k + 1] == x;
    }
  }

  /** Deleting position `i` keeps the element at every other position. */
  lemma KeptInRemoved<T>(s: seq<T>, i: nat, k: nat)
    requires i < |s| && k < |s| && k != i
    ensures s[k] in s[..i] + s[i + 1..]
  {
    var rest := s[..i] + s[i + 1..];
    if k < i {
      assert rest[k] == s[k];
    } else {
      assert rest[k - 1] == s[k];
    }
  }

  /** The item appended for a fresh key is what `FindKey` finds afterwards. */
  lemma {:induction false} FindKeyAppend(items: seq<Item>, item: Item)
    requires FindKey(items, item.userId, item.key).None?
    ensures FindKey(items + [item], item.userId, item.key) == Some(|items|)
  {
    if items != [] {
      assert (items + [item])[1..] == items[1..] + [item];
      FindKeyAppend(items[1..], item);
    }
  }

  /**
    * Storing twice is harmless: once `store` has created an item, a second
    * request whose label and category give the same canonical key (another
    * spelling, other letter case, other spacing) gets that item back, not
    * created, and the table does not grow.
    */
  lemma StoreTwice(items: seq<Item>, nextId: nat, userId: int, name: string, category: Option<string>,
                   name': string, category': Option<string>, colors: Option<Value>, cover: Option<string>)
    requires FindOrNew(items, nextId, userId, name, category, colors, cover).0
    requires CanonicalKey(name', category') == CanonicalKey(name, category)
    ensures var item := FindOrNew(items, nextId, userId, name, category, colors, cover).1;
      FindOrNew(items + [item], nextId + 1, userId, name', category', None, None) == (false, item)
  {
    var item := FindOrNew(items, nextId, userId, name, category, colors, cover).1;
    FindKeyAppend(items, item);
  }

  /** Renaming an item to a label with its current key is never a conflict with itself. */
  lemma RenameKeepingKey(items: seq<Item>, nextId: nat, i: nat, name: string)
    requires Table(items, nextId) && i < |items|
    requires var t := Trim(name, PhpTrim); t != "" && |t| <= MaxLabelLength
    requires CanonicalKey(Trim(name, PhpTrim), items[i].category) == items[i].key
    ensures UpdateOf(items, items[i].userId, items[i].id, Str(name))
      == Updated(items[i].(name := Trim(name, PhpTrim)))
  {
    var item := items[i];
    assert InputText(Str(name)) == name;
    assert forall k :: 0 <= k < |items| && k != i ==> items[k].id != item.id;
    assert IndexOfId(items, item.id) == Some(i);
    assert Owns(items, item.userId, item.id);
    assert forall j :: 0 <= j < |items| && items[j].userId == item.userId && items[j].key == item.key ==> j == i;
    assert !KeyTakenByOther(items, item.userId, item.key, item.id);
  }

  /** After `destroy`, the deleted item's key is free again: storing it creates a new item. */
  lemma DestroyFreesKey(items: seq<Item>, nextId: nat, i: nat)
    requires Table(items, nextId) && i < |items|
    ensures FindKey(items[..i] + items[i + 1..], items[i].userId, items[i].key).None?
  {
  }
}
