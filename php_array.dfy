/**
  * PHP values as `json_decode($text, true)` produces them: scalars and ordered
  * arrays (PHP does not distinguish lists from maps), with the few array
  * operations the services use: lookup, in-place key assignment, `(array)` casts,
  * `array_filter` + `array_values`, `(string)` casts and Laravel's `data_get`.
  */
module PhpArray {
  import opened Outcomes
  import Text

  /** An array key; JSON object keys that are decimal integers become `IntKey`s. */
  datatype Key = IntKey(n: int) | StrKey(s: string)

  /** A decoded value. Floats are not modelled. */
  datatype Value =
    | Null
    | Bool(b: bool)
    | Int(i: int)
    | Str(s: string)
    | Arr(entries: seq<(Key, Value)>)

  type Entries = seq<(Key, Value)>

  predicate HasKey(es: Entries, k: Key) {
    exists i :: 0 <= i < |es| && es[i].0 == k
  }

  /** `$es[$k]` when the key exists (the first entry with that key). */
  function Get(es: Entries, k: Key): (r: Option<Value>)
    ensures r.Some? <==> HasKey(es, k)
    ensures r.Some? ==> exists i :: 0 <= i < |es| && es[i] == (k, r.value)
  {
    if es == [] then None
    else if es[0].0 == k then Some(es[0].1)
    else
      var r := Get(es[1..], k);
      assert r.Some? ==> exists i :: 0 <= i < |es| && es[i] == (k, r.value) by {
        if r.Some? {
          var i :| 0 <= i < |es[1..]| && es[1..][i] == (k, r.value);
          assert es[i + 1] == (k, r.value);
        }
      }
      assert HasKey(es, k) ==> HasKey(es[1..], k) by {
        if HasKey(es, k) {
          var i :| 0 <= i < |es| && es[i].0 == k;
          assert i > 0 && es[1..][i - 1].0 == k;
        }
      }
      assert HasKey(es[1..], k) ==> HasKey(es, k) by {
        if HasKey(es[1..], k) {
          var i :| 0 <= i < |es[1..]| && es[1..][i].0 == k;
          assert es[i + 1].0 == k;
        }
      }
      r
  }

  /**
    * `$es[$k] = $v`: an existing key keeps its position and gets the new value;
    * a new key is appended at the end. No other entry changes.
    */
  function Set(es: Entries, k: Key, v: Value): (r: Entries)
    ensures Get(r, k) == Some(v)
    ensures forall k' :: k' != k ==> Get(r, k') == Get(es, k')
    ensures HasKey(es, k) ==> |r| == |es|
    ensures !HasKey(es, k) ==> r == es + [(k, v)]
    ensures forall i :: 0 <= i < |es| && es[i].0 != k ==> r[i] == es[i]
  {
    WrittenShape(es, k, v);
    WrittenGet(es, k, v);
    forall k' | k' != k ensures Get(Written(es, k, v), k') == Get(es, k') {
      WrittenFrame(es, k, v, k');
    }
    Written(es, k, v)
  }

  /** The entries after the assignment, entry by entry. */
  function Written(es: Entries, k: Key, v: Value): Entries {
    if es == [] then [(k, v)]
    else if es[0].0 == k then [(k, v)] + es[1..]
    else [es[0]] + Written(es[1..], k, v)
  }

  lemma {:induction false} WrittenShape(es: Entries, k: Key, v: Value)
    ensures HasKey(es, k) ==> |Written(es, k, v)| == |es|
    ensures !HasKey(es, k) ==> Written(es, k, v) == es + [(k, v)]
    ensures forall i :: 0 <= i < |es| && es[i].0 != k ==> Written(es, k, v)[i] == es[i]
  {
    if es != [] && es[0].0 != k {
      WrittenShape(es[1..], k, v);
      assert HasKey(es, k) ==> HasKey(es[1..], k) by {
        if HasKey(es, k) {
          var i :| 0 <= i < |es| && es[i].0 == k;
          assert i > 0 && es[1..][i - 1].0 == k;
        }
      }
      assert !HasKey(es, k) ==> !HasKey(es[1..], k) by {
        if HasKey(es[1..], k) {
          var i :| 0 <= i < |es[1..]| && es[1..][i].0 == k;
          assert es[i + 1].0 == k;
        }
      }
      assert !HasKey(es, k) ==> Written(es, k, v) == es + [(k, v)] by {
        if !HasKey(es, k) {
          assert es == [es[0]] + es[1..];
        }
      }
    }
  }

  lemma {:induction false} WrittenGet(es: Entries, k: Key, v: Value)
    ensures Get(Written(es, k, v), k) == Some(v)
  {
    if es != [] && es[0].0 != k {
      WrittenGet(es[1..], k, v);
      assert Written(es, k, v)[1..] == Written(es[1..], k, v);
    }
  }

  lemma {:induction false} WrittenFrame(es: Entries, k: Key, v: Value, k': Key)
    requires k' != k
    ensures Get(Written(es, k, v), k') == Get(es, k')
  {
    if es != [] && es[0].0 != k {
      WrittenFrame(es[1..], k, v, k');
      assert Written(es, k, v)[1..] == Written(es[1..], k, v);
    }
  }

  /** Writing back the value a key already has changes nothing. */
  lemma {:induction false} SetExisting(es: Entries, k: Key)
    requires HasKey(es, k)
    ensures Set(es, k, Get(es, k).value) == es
  {
    if es[0].0 != k {
      assert HasKey(es[1..], k) by {
        var i :| 0 <= i < |es| && es[i].0 == k;
        assert i > 0 && es[1..][i - 1].0 == k;
      }
      SetExisting(es[1..], k);
      assert [es[0]] + es[1..] == es;
    } else {
      assert [(k, es[0].1)] + es[1..] == es;
    }
  }

  /** Two writes to the same key: the second wins, in the first one's position. */
  lemma {:induction false} SetSet(es: Entries, k: Key, v: Value, w: Value)
    ensures Set(Set(es, k, v), k, w) == Set(es, k, w)
  {
    if es != [] && es[0].0 != k {
      SetSet(es[1..], k, v, w);
    }
  }

  /** Looking up a key in an array with one more entry at the end. */
  lemma {:induction false} GetAppend(es: Entries, k': Key, v: Value, k: Key)
    ensures Get(es + [(k', v)], k) == if HasKey(es, k) then Get(es, k) else if k' == k then Some(v) else None
  {
    if es != [] {
      assert (es + [(k', v)])[1..] == es[1..] + [(k', v)];
      GetAppend(es[1..], k', v, k);
    }
  }

  /** PHP truthiness: null, false, 0, "", "0" and [] are falsy. */
  predicate Truthy(v: Value) {
    match v
    case Null => false
    case Bool(b) => b
    case Int(i) => i != 0
    case Str(s) => Text.TruthyString(s)
    case Arr(es) => es != []
  }

  function ValuesOf(es: Entries): (vs: seq<Value>)
    ensures |vs| == |es| && forall i :: 0 <= i < |es| ==> vs[i] == es[i].1
  {
    seq(|es|, i requires 0 <= i < |es| => es[i].1)
  }

  /** `array_values((array) $v)`: null casts to [], a scalar to [scalar]. */
  function CastToList(v: Value): (vs: seq<Value>)
    ensures v.Null? ==> vs == []
    ensures v.Arr? ==> vs == ValuesOf(v.entries)
    ensures !v.Null? && !v.Arr? ==> vs == [v]
  {
    match v
    case Null => []
    case Arr(es) => ValuesOf(es)
    case _ => [v]
  }

  /** `array_filter` without a callback: keeps the truthy values, in order. */
  function FilterTruthy(vs: seq<Value>): (r: seq<Value>)
    ensures |r| <= |vs|
    ensures forall x :: x in r ==> Truthy(x) && x in vs
    ensures forall x :: x in vs && Truthy(x) ==> x in r
  {
    if vs == [] then []
    else if Truthy(vs[0]) then [vs[0]] + FilterTruthy(vs[1..])
    else FilterTruthy(vs[1..])
  }

  /** `array_filter` keeps order and repeats: filtering two lists one after the other is filtering each. */
  lemma {:induction false} FilterTruthyAppend(a: seq<Value>, b: seq<Value>)
    ensures FilterTruthy(a + b) == FilterTruthy(a) + FilterTruthy(b)
  {
    if a == [] {
      assert a + b == b;
    } else {
      assert (a + b)[1..] == a[1..] + b;
      FilterTruthyAppend(a[1..], b);
    }
  }

  /** One value is kept exactly when it is truthy. */
  lemma FilterTruthyOne(v: Value)
    ensures FilterTruthy([v]) == if Truthy(v) then [v] else []
  {
  }

  /** Filtering a list that holds only truthy values returns it unchanged. */
  lemma {:induction false} FilterTruthyKeeps(vs: seq<Value>)
    requires forall x :: x in vs ==> Truthy(x)
    ensures FilterTruthy(vs) == vs
  {
    if vs != [] {
      assert forall x :: x in vs[1..] ==> x in vs;
      FilterTruthyKeeps(vs[1..]);
    }
  }

  /** A PHP list: keys 0, 1, ..., n-1 in that order. */
  function ListValue(vs: seq<Value>): (v: Value)
    ensures v.Arr? && |v.entries| == |vs|
    ensures forall i :: 0 <= i < |vs| ==> v.entries[i] == (IntKey(i), vs[i])
  {
    Arr(seq(|vs|, i requires 0 <= i < |vs| => (IntKey(i), vs[i])))
  }

  predicate IsList(v: Value) {
    v.Arr? && forall i :: 0 <= i < |v.entries| ==> v.entries[i].0 == IntKey(i)
  }

  lemma ListValueRoundTrip(vs: seq<Value>)
    ensures IsList(ListValue(vs))
    ensures CastToList(ListValue(vs)) == vs
  {
  }

  /**
    * `(string) $v`. Casting an array raises PHP's "Array to string conversion"
    * warning, which Laravel's error handler rethrows as an `ErrorException`:
    * the cast then has no result, `None`.
    */
  function ToPhpString(v: Value): (r: Option<string>)
    ensures r.None? <==> v.Arr?
    ensures r == Some("") <==> v == Null || v == Bool(false) || v == Str("")
    ensures v.Str? ==> r == Some(v.s)
  {
    match v
    case Null => Some("")
    case Bool(b) => Some(if b then "1" else "")
    case Int(i) => Some(Text.IntToString(i))
    case Str(s) => Some(s)
    case Arr(_) => None
  }

  /** The message of the `ErrorException` an array-to-string cast throws. */
  const ArrayToString := "Array to string conversion"

  /**
    * Every value that casts keeps its truthiness as a string: the integer 0
    * prints as "0", which PHP treats as falsy too.
    */
  lemma CastKeepsTruthiness(v: Value)
    ensures ToPhpString(v).Some? ==> (Text.TruthyString(ToPhpString(v).value) <==> Truthy(v))
  {
    if v.Int? {
      IntStringZero(v.i);
    }
  }

  /** Only 0 prints as "0". */
  lemma IntStringZero(i: int)
    ensures Text.IntToString(i) == "0" <==> i == 0
  {
    if i < 0 {
      assert Text.IntToString(i)[0] == '-';
    } else if i >= 10 {
      assert |Text.NatToString(i)| > 1 by {
        assert Text.NatToString(i) == Text.NatToString(i / 10) + [Text.DigitChar(i % 10)];
      }
    } else {
      assert Text.IntToString(i) == [Text.DigitChar(i)];
    }
  }

  /**
    * Laravel `data_get($v, 'a.b.c')` with the path given as keys; `None` when a
    * segment is missing or the value on the way is not an array (the caller's
    * default then applies). A key that exists with a null value yields `Some(Null)`.
    */
  function DataGet(v: Value, path: seq<Key>): (r: Option<Value>)
    ensures path == [] ==> r == Some(v)
    ensures r.Some? && path != [] ==> v.Arr? && HasKey(v.entries, path[0])
    decreases |path|
  {
    if path == [] then Some(v)
    else match v
      case Arr(es) =>
        (match Get(es, path[0])
         case Some(child) => DataGet(child, path[1..])
         case None => None)
      case _ => None
  }

  /** A one-segment path is a plain lookup. */
  lemma DataGetOne(es: Entries, k: Key)
    ensures DataGet(Arr(es), [k]) == Get(es, k)
  {
    assert [k][1..] == [];
  }

  /** Following `p` then `q` is following the dotted path `p.q`. */
  lemma {:induction false} DataGetPath(v: Value, p: seq<Key>, q: seq<Key>)
    ensures DataGet(v, p + q) == match DataGet(v, p) case Some(x) => DataGet(x, q) case None => None
    decreases |p|
  {
    if p == [] {
      assert p + q == q;
    } else {
      assert (p + q)[0] == p[0] && (p + q)[1..] == p[1..] + q;
      if v.Arr? && Get(v.entries, p[0]).Some? {
        DataGetPath(Get(v.entries, p[0]).value, p[1..], q);
      }
    }
  }

  /** `data_get($v, $path, $default)`. */
  function DataGetOr(v: Value, path: seq<Key>, default: Value): (r: Value)
    ensures DataGet(v, path) == Some(r) || (DataGet(v, path) == None && r == default)
  {
    match DataGet(v, path)
    case Some(x) => x
    case None => default
  }

  /** `data_get($a, 'k', $default)`: the stored value (null included) when the key exists, else the default. */
  lemma DataGetOrKey(es: Entries, k: Key, default: Value)
    ensures HasKey(es, k) ==> DataGetOr(Arr(es), [k], default) == Get(es, k).value
    ensures !HasKey(es, k) ==> DataGetOr(Arr(es), [k], default) == default
  {
    DataGetOne(es, k);
  }
}
