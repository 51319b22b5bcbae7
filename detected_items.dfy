/**
  * `persistDetectedItems`, the same in both analysis controllers: every
  * non-blank label under `items` becomes one detected-item row, category by
  * category and label by label, with the trimmed label, the category key when
  * it is a non-empty string, and the payload's `colors` and cover image. The
  * rows go into a table whose ids are handed out in increasing order.
  */
module DetectedItems {
  import opened Outcomes
  import opened Text
  import opened PhpArray

  /** The columns every row of one call shares. */
  datatype Source = Source(userId: int, sourceType: string, sourceId: int, processId: int, cover: string)

  /** One row of `outfit_detected_items`. */
  datatype Row = Row(id: nat, source: Source, name: string, category: Option<string>, colors: Value)

  /** What the call returns for each row: `id`, `label`, `category`, `colors`. */
  datatype Summary = Summary(id: nat, name: string, category: Option<string>, colors: Value)

  /** A row to create, before it has an id. */
  datatype Detected = Detected(name: string, category: Option<string>)

  /** `(array) $v`: null casts to [], a scalar to `[0 => scalar]`. */
  function CastToArray(v: Value): (es: Entries)
    ensures v.Arr? ==> es == v.entries
    ensures v.Null? ==> es == []
    ensures !v.Arr? && !v.Null? ==> es == [(IntKey(0), v)]
  {
    match v
    case Null => []
    case Arr(es) => es
    case _ => [(IntKey(0), v)]
  }

  /** `(array) data_get($vision, 'items', [])`. */
  function Categories(vision: Entries): Entries {
    CastToArray(DataGetOr(Arr(vision), [StrKey("items")], Arr([])))
  }

  /** `data_get($vision, 'colors')`: null when missing. */
  function ColorsOf(vision: Entries): Value {
    DataGetOr(Arr(vision), [StrKey("colors")], Null)
  }

  /** `is_string($category) && $category !== '' ? $category : null`. */
  function CategoryOf(k: Key): (c: Option<string>)
    ensures c.Some? <==> k.StrKey? && k.s != ""
    ensures c.Some? ==> c.value == k.s
  {
    if k.StrKey? && k.s != "" then Some(k.s) else None
  }

  /**
    * `trim((string) $label)`: `None` when the label is an array, whose cast
    * throws "Array to string conversion".
    */
  function LabelOf(v: Value): (r: Option<string>)
    ensures r.None? <==> v.Arr?
    ensures v.Str? ==> r == Some(Trim(v.s, PhpTrim))
  {
    match ToPhpString(v)
    case None => None
    case Some(s) => Some(Trim(s, PhpTrim))
  }

  /** A label is already trimmed: trimming it again changes nothing. */
  lemma LabelTrimmed(v: Value)
    requires LabelOf(v).Some?
    ensures Trim(LabelOf(v).value, PhpTrim) == LabelOf(v).value
  {
    TrimIdempotent(ToPhpString(v).value, PhpTrim);
  }

  /** Some label of the list is an array: the loop throws when it reaches it (see `ThrowsIff`). */
  predicate Throws(labels: seq<Value>) {
    labels != [] && (labels[0].Arr? || Throws(labels[1..]))
  }

  /** Some category's labels hold an array (see `CatsThrowIff`). */
  predicate CatsThrow(cats: Entries) {
    cats != [] && (Throws(CastToList(cats[0].1)) || CatsThrow(cats[1..]))
  }

  /** The row one label gives: none when it trims to "" or its cast throws. */
  function Kept(v: Value, category: Option<string>): seq<Detected> {
    match LabelOf(v)
    case Some(name) => if name == "" then [] else [Detected(name, category)]
    case None => []
  }

  /**
    * The rows one category's labels give, blank labels skipped, up to the
    * first label whose cast throws: nothing after it is reached.
    */
  function LabelsOf(labels: seq<Value>, category: Option<string>): seq<Detected> {
    if labels == [] then []
    else
      Kept(labels[0], category) + (if labels[0].Arr? then [] else LabelsOf(labels[1..], category))
  }

  /** The rows of all categories, in the order the categories come, up to the first label that throws. */
  function DetectedOf(cats: Entries): seq<Detected> {
    if cats == [] then []
    else
      var labels := CastToList(cats[0].1);
      LabelsOf(labels, CategoryOf(cats[0].0)) + (if Throws(labels) then [] else DetectedOf(cats[1..]))
  }

  /** The rows created from `ds`, numbered from `id0`. */
  function RowsFor(src: Source, ds: seq<Detected>, colors: Value, id0: nat): (rows: seq<Row>)
    ensures |rows| == |ds|
  {
    seq(|ds|, i requires 0 <= i < |ds| => Row(id0 + i, src, ds[i].name, ds[i].category, colors))
  }

  function Summaries(rows: seq<Row>): (r: seq<Summary>)
    ensures |r| == |rows|
  {
    seq(|rows|, i requires 0 <= i < |rows| => Summary(rows[i].id, rows[i].name, rows[i].category, rows[i].colors))
  }

  // ----- properties of the rows -----

  /** `Throws` holds exactly when some label is an array. */
  lemma {:induction false} ThrowsIff(labels: seq<Value>)
    ensures Throws(labels) <==> exists i :: 0 <= i < |labels| && labels[i].Arr?
  {
    if labels != [] {
      ThrowsIff(labels[1..]);
      if exists i :: 0 <= i < |labels| && labels[i].Arr? {
        var i :| 0 <= i < |labels| && labels[i].Arr?;
        if i > 0 {
          assert labels[1..][i - 1].Arr?;
        }
      }
      if Throws(labels[1..]) {
        var k :| 0 <= k < |labels[1..]| && labels[1..][k].Arr?;
        assert labels[k + 1].Arr?;
      }
    }
  }

  /** `CatsThrow` holds exactly when some category's labels hold an array. */
  lemma {:induction false} CatsThrowIff(cats: Entries)
    ensures CatsThrow(cats) <==> exists i :: 0 <= i < |cats| && Throws(CastToList(cats[i].1))
  {
    if cats != [] {
      CatsThrowIff(cats[1..]);
      if exists i :: 0 <= i < |cats| && Throws(CastToList(cats[i].1)) {
        var i :| 0 <= i < |cats| && Throws(CastToList(cats[i].1));
        if i > 0 {
          assert cats[1..][i - 1] == cats[i];
        }
      }
      if CatsThrow(cats[1..]) {
        var k :| 0 <= k < |cats[1..]| && Throws(CastToList(cats[1..][k].1));
        assert cats[k + 1] == cats[1..][k];
      }
    }
  }

  lemma {:induction false} ThrowsAppend(a: seq<Value>, b: seq<Value>)
    ensures Throws(a + b) <==> Throws(a) || Throws(b)
  {
    if a == [] {
      assert a + b == b;
    } else {
      AppendTail(a, b);
      ThrowsAppend(a[1..], b);
    }
  }

  lemma {:induction false} CatsThrowAppend(a: Entries, b: Entries)
    ensures CatsThrow(a + b) <==> CatsThrow(a) || CatsThrow(b)
  {
    if a == [] {
      assert a + b == b;
    } else {
      AppendTail(a, b);
      CatsThrowAppend(a[1..], b);
    }
  }

  /**
    * Labels are split category by category: the rows of two lists are the
    * rows of the first, then, unless the first throws, the rows of the second.
    */
  lemma {:induction false} LabelsAppend(a: seq<Value>, b: seq<Value>, category: Option<string>)
    ensures LabelsOf(a + b, category) == LabelsOf(a, category) + (if Throws(a) then [] else LabelsOf(b, category))
  {
    if a == [] {
      assert a + b == b;
      assert !Throws(a);
    } else {
      AppendTail(a, b);
      if !a[0].Arr? {
        LabelsAppend(a[1..], b, category);
        AppendAssoc(Kept(a[0], category), LabelsOf(a[1..], category), if Throws(a) then [] else LabelsOf(b, category));
      }
    }
  }

  /**
    * Categories are handled in order: the rows of two lists of categories are
    * the rows of the first, then, unless a label there throws, the rows of the second.
    */
  lemma {:induction false} DetectedAppend(a: Entries, b: Entries)
    ensures DetectedOf(a + b) == DetectedOf(a) + (if CatsThrow(a) then [] else DetectedOf(b))
  {
    if a == [] {
      assert a + b == b;
      assert !CatsThrow(a);
    } else {
      AppendTail(a, b);
      var head := LabelsOf(CastToList(a[0].1), CategoryOf(a[0].0));
      if !Throws(CastToList(a[0].1)) {
        DetectedAppend(a[1..], b);
        AppendAssoc(head, DetectedOf(a[1..]), if CatsThrow(a) then [] else DetectedOf(b));
      }
    }
  }

  /**
    * Where the loop throws: when the label `labels[j]` of category `i` is the
    * first array, the rows are those of every label before it, and nothing after.
    */
  lemma DetectedStops(cats: Entries, i: nat, j: nat)
    requires i < |cats| && j < |CastToList(cats[i].1)|
    requires !CatsThrow(cats[..i]) && !Throws(CastToList(cats[i].1)[..j]) && CastToList(cats[i].1)[j].Arr?
    ensures CatsThrow(cats)
    ensures DetectedOf(cats) == DetectedOf(cats[..i]) + LabelsOf(CastToList(cats[i].1)[..j], CategoryOf(cats[i].0))
  {
    ThrowStep(CastToList(cats[i].1), j, CategoryOf(cats[i].0));
    CatsThrowStep(cats, i);
    DetectedSnoc(cats, i);
  }

  /** A first category that throws is the only one whose rows are made. */
  lemma ThrowingHead(cats: Entries)
    requires cats != [] && Throws(CastToList(cats[0].1))
    ensures CatsThrow(cats)
    ensures DetectedOf(cats) == LabelsOf(CastToList(cats[0].1), CategoryOf(cats[0].0))
  {
  }

  /** Every row of a category list has a non-blank, trimmed label taken from the list, and that category. */
  lemma {:induction false} LabelsShape(labels: seq<Value>, category: Option<string>)
    ensures forall d :: d in LabelsOf(labels, category) ==>
      d.name != "" && Trim(d.name, PhpTrim) == d.name && d.category == category
    ensures forall d :: d in LabelsOf(labels, category) ==> exists v :: v in labels && LabelOf(v) == Some(d.name)
  {
    if labels != [] && !labels[0].Arr? {
      LabelTrimmed(labels[0]);
      LabelsShape(labels[1..], category);
      assert forall v :: v in labels[1..] ==> v in labels;
    }
  }

  /** Each non-blank label before the first array gives a row with that label and its category. */
  lemma {:induction false} LabelsComplete(labels: seq<Value>, category: Option<string>, j: nat, name: string)
    requires j < |labels| && !Throws(labels[..j]) && LabelOf(labels[j]) == Some(name) && name != ""
    ensures Detected(name, category) in LabelsOf(labels, category)
  {
    var d := Detected(name, category);
    var tail := labels[1..];
    if j == 0 {
      assert Kept(labels[0], category) == [d];
    } else {
      assert labels[0] == labels[..j][0];
      assert labels[j] == tail[j - 1];
      assert labels[..j][1..] == tail[..j - 1];
      LabelsComplete(tail, category, j - 1, name);
      assert d in LabelsOf(tail, category);
    }
  }

  /** A category list with only blank labels gives no rows. */
  lemma {:induction false} BlankLabels(labels: seq<Value>, category: Option<string>)
    requires forall i :: 0 <= i < |labels| ==> LabelOf(labels[i]) == Some("")
    ensures LabelsOf(labels, category) == []
  {
    if labels != [] {
      assert LabelOf(labels[0]) == Some("");
      BlankLabels(labels[1..], category);
    }
  }

  /** `d` is a row that entry `i` of the categories gives: its key's category and one of its labels. */
  predicate FromEntry(cats: Entries, i: int, d: Detected) {
    && 0 <= i < |cats|
    && d.category == CategoryOf(cats[i].0)
    && exists v :: v in CastToList(cats[i].1) && LabelOf(v) == Some(d.name)
  }

  /**
    * Every row has a non-blank trimmed label taken from a label of some
    * category, and the category is that entry's key when it is a non-empty
    * string, otherwise null.
    */
  lemma {:induction false} DetectedSound(cats: Entries)
    ensures forall d :: d in DetectedOf(cats) ==> d.name != "" && Trim(d.name, PhpTrim) == d.name
    ensures forall d :: d in DetectedOf(cats) ==> exists i :: FromEntry(cats, i, d)
  {
    if cats != [] {
      var head := LabelsOf(CastToList(cats[0].1), CategoryOf(cats[0].0));
      LabelsShape(CastToList(cats[0].1), CategoryOf(cats[0].0));
      DetectedSound(cats[1..]);
      forall d | d in DetectedOf(cats)
        ensures exists i :: FromEntry(cats, i, d)
      {
        if d in head {
          assert FromEntry(cats, 0, d);
        } else {
          assert d in DetectedOf(cats[1..]);
          var i :| FromEntry(cats[1..], i, d);
          assert cats[1..][i] == cats[i + 1];
          assert FromEntry(cats, i + 1, d);
        }
      }
    }
  }

  /** Every non-blank label that the loop reaches gives a row with that label and its category. */
  lemma {:induction false} DetectedComplete(cats: Entries, i: nat, j: nat, name: string)
    requires i < |cats| && j < |CastToList(cats[i].1)|
    requires !CatsThrow(cats[..i]) && !Throws(CastToList(cats[i].1)[..j])
    requires LabelOf(CastToList(cats[i].1)[j]) == Some(name) && name != ""
    ensures Detected(name, CategoryOf(cats[i].0)) in DetectedOf(cats)
  {
    var d := Detected(name, CategoryOf(cats[i].0));
    if i == 0 {
      LabelsComplete(CastToList(cats[0].1), CategoryOf(cats[0].0), j, name);
      InHead(cats, d);
    } else {
      var tail := cats[1..];
      assert tail[i - 1] == cats[i];
      assert cats[..i] == [cats[0]] + tail[..i - 1];
      assert cats[..i][1..] == tail[..i - 1];
      DetectedComplete(tail, i - 1, j, name);
      InTail(cats, d);
    }
  }

  /** A row of the first category is a row of the whole list. */
  lemma InHead(cats: Entries, d: Detected)
    requires cats != [] && d in LabelsOf(CastToList(cats[0].1), CategoryOf(cats[0].0))
    ensures d in DetectedOf(cats)
  {
  }

  /** A row of the later categories is a row of the whole list, when the first category does not throw. */
  lemma InTail(cats: Entries, d: Detected)
    requires cats != [] && !Throws(CastToList(cats[0].1)) && d in DetectedOf(cats[1..])
    ensures d in DetectedOf(cats)
  {
  }

  /** A payload whose `items` is missing or empty gives no rows at all. */
  lemma NoItemsNoRows(vision: Entries)
    requires Get(vision, StrKey("items")).None? || Get(vision, StrKey("items")) == Some(Arr([]))
    ensures DetectedOf(Categories(vision)) == []
  {
  }

  /** When no earlier category throws, the last category's rows come last. */
  lemma DetectedSnoc(cats: Entries, c: nat)
    requires c < |cats| && !CatsThrow(cats[..c])
    ensures DetectedOf(cats[..c + 1]) == DetectedOf(cats[..c]) + LabelsOf(CastToList(cats[c].1), CategoryOf(cats[c].0))
  {
    var front, one := cats[..c], [cats[c]];
    var rows := LabelsOf(CastToList(cats[c].1), CategoryOf(cats[c].0));
    assert DetectedOf(front + one) == DetectedOf(front) + rows by {
      assert DetectedOf(one) == rows by {
        assert one[0] == cats[c] && one[1..] == [];
        assert DetectedOf(one) == rows + [];
      }
      DetectedAppend(front, one);
    }
    assert front + one == cats[..c + 1];
  }

  /** When no earlier label throws, the last label's row, if any, comes last. */
  lemma LabelsSnoc(labels: seq<Value>, j: nat, category: Option<string>)
    requires j < |labels| && !Throws(labels[..j])
    ensures LabelsOf(labels[..j + 1], category) == LabelsOf(labels[..j], category) + Kept(labels[j], category)
  {
    var front, one := labels[..j], [labels[j]];
    assert LabelsOf(front + one, category) == LabelsOf(front, category) + Kept(labels[j], category) by {
      assert LabelsOf(one, category) == Kept(labels[j], category) by {
        assert one[0] == labels[j] && one[1..] == [];
        assert LabelsOf(one, category) == Kept(labels[j], category) + [];
      }
      LabelsAppend(front, one, category);
    }
    assert front + one == labels[..j + 1];
  }

  /** A label that casts keeps the labels so far free of arrays. */
  lemma NoThrowStep(labels: seq<Value>, j: nat)
    requires j < |labels| && !Throws(labels[..j]) && !labels[j].Arr?
    ensures !Throws(labels[..j + 1])
  {
    var front, one := labels[..j], [labels[j]];
    assert !Throws(front + one) by {
      assert one[0] == labels[j] && one[1..] == [];
      ThrowsAppend(front, one);
    }
    assert front + one == labels[..j + 1];
  }

  /** An array label ends the category: its rows are those of the labels before it. */
  lemma ThrowStep(labels: seq<Value>, j: nat, category: Option<string>)
    requires j < |labels| && !Throws(labels[..j]) && labels[j].Arr?
    ensures Throws(labels)
    ensures LabelsOf(labels, category) == LabelsOf(labels[..j], category)
  {
    var front, back := labels[..j], labels[j..];
    assert Throws(front + back) && LabelsOf(front + back, category) == LabelsOf(front, category) by {
      assert back[0] == labels[j];
      assert Throws(back) && LabelsOf(back, category) == [];
      LabelsAppend(front, back, category);
      ThrowsAppend(front, back);
    }
    assert front + back == labels;
  }

  /** A category that throws ends the loop: the rows are those so far and its own. */
  lemma CatsThrowStep(cats: Entries, c: nat)
    requires c < |cats| && !CatsThrow(cats[..c]) && Throws(CastToList(cats[c].1))
    ensures CatsThrow(cats)
    ensures DetectedOf(cats) == DetectedOf(cats[..c + 1])
  {
    var rows := LabelsOf(CastToList(cats[c].1), CategoryOf(cats[c].0));
    assert CatsThrow(cats) && DetectedOf(cats) == DetectedOf(cats[..c]) + rows by {
      var front, back := cats[..c], cats[c..];
      assert back[0] == cats[c];
      ThrowSplit(front, back);
      assert front + back == cats;
    }
    DetectedSnoc(cats, c);
  }

  /** Categories before one that throws, then that one: the rows of those before, then its own. */
  lemma ThrowSplit(front: Entries, back: Entries)
    requires back != [] && !CatsThrow(front) && Throws(CastToList(back[0].1))
    ensures CatsThrow(front + back)
    ensures DetectedOf(front + back) == DetectedOf(front) + LabelsOf(CastToList(back[0].1), CategoryOf(back[0].0))
  {
    ThrowingHead(back);
    DetectedAppend(front, back);
    CatsThrowAppend(front, back);
  }

  /** A category that does not throw keeps the categories so far free of arrays. */
  lemma CatsNoThrowStep(cats: Entries, c: nat)
    requires c < |cats| && !CatsThrow(cats[..c]) && !Throws(CastToList(cats[c].1))
    ensures !CatsThrow(cats[..c + 1])
  {
    var front, one := cats[..c], [cats[c]];
    assert !CatsThrow(front + one) by {
      assert one[0] == cats[c] && one[1..] == [];
      CatsThrowAppend(front, one);
    }
    assert front + one == cats[..c + 1];
  }

  /** Creating one more row extends the table by that row. */
  lemma StepRows(rows0: seq<Row>, src: Source, ds: seq<Detected>, ds1: seq<Detected>, d: Detected, colors: Value, id0: nat, r: Row)
    requires ds1 == ds + [d] && r == Row(id0 + |ds|, src, d.name, d.category, colors)
    ensures rows0 + RowsFor(src, ds1, colors, id0) == rows0 + RowsFor(src, ds, colors, id0) + [r]
  {
    assert RowsFor(src, ds1, colors, id0) == RowsFor(src, ds, colors, id0) + [r];
  }

  /** Creating one more row extends the returned list by its summary. */
  lemma StepSummaries(src: Source, ds: seq<Detected>, ds1: seq<Detected>, d: Detected, colors: Value, id0: nat, r: Row)
    requires ds1 == ds + [d] && r == Row(id0 + |ds|, src, d.name, d.category, colors)
    ensures Summaries(RowsFor(src, ds1, colors, id0))
      == Summaries(RowsFor(src, ds, colors, id0)) + [Summary(r.id, r.name, r.category, r.colors)]
  {
    assert RowsFor(src, ds1, colors, id0) == RowsFor(src, ds, colors, id0) + [r];
    SummariesAppend(RowsFor(src, ds, colors, id0), [r]);
  }

  /** The rows of two runs of detections are numbered one after the other. */
  lemma RowsAppend(src: Source, ds: seq<Detected>, es: seq<Detected>, colors: Value, id0: nat)
    ensures RowsFor(src, ds + es, colors, id0) == RowsFor(src, ds, colors, id0) + RowsFor(src, es, colors, id0 + |ds|)
  {
  }

  /** Summaries of two runs of rows, one after the other. */
  lemma SummariesAppend(xs: seq<Row>, ys: seq<Row>)
    ensures Summaries(xs + ys) == Summaries(xs) + Summaries(ys)
  {
  }

  /** One category's rows appended to the table and to the returned list. */
  lemma StepCategory(rows0: seq<Row>, rows1: seq<Row>, items0: seq<Summary>, items1: seq<Summary>,
                     src: Source, ds: seq<Detected>, es: seq<Detected>, colors: Value, id0: nat, id1: nat)
    requires rows0 == RowsFor(src, ds, colors, id0) && items0 == Summaries(rows0)
    requires id1 == id0 + |ds| && rows1 == RowsFor(src, es, colors, id1) && items1 == Summaries(rows1)
    ensures rows0 + rows1 == RowsFor(src, ds + es, colors, id0)
    ensures items0 + items1 == Summaries(RowsFor(src, ds + es, colors, id0))
  {
    RowsAppend(src, ds, es, colors, id0);
    SummariesAppend(rows0, rows1);
  }

  /** A label that trims to "" adds no row. */
  lemma BlankStep(labels: seq<Value>, j: nat, category: Option<string>)
    requires j < |labels| && !Throws(labels[..j]) && LabelOf(labels[j]) == Some("")
    ensures LabelsOf(labels[..j + 1], category) == LabelsOf(labels[..j], category)
  {
    LabelsSnoc(labels, j, category);
  }

  /** A non-blank label adds one row, numbered after the rows before it, to the table. */
  lemma LabelStep(labels: seq<Value>, j: nat, category: Option<string>, name: string, rows0: seq<Row>, rows1: seq<Row>,
                  src: Source, colors: Value, id0: nat, row: Row)
    requires j < |labels| && !Throws(labels[..j]) && LabelOf(labels[j]) == Some(name) && name != ""
    requires row == Row(id0 + |LabelsOf(labels[..j], category)|, src, name, category, colors)
    requires rows1 == rows0 + RowsFor(src, LabelsOf(labels[..j], category), colors, id0) + [row]
    ensures |LabelsOf(labels[..j + 1], category)| == |LabelsOf(labels[..j], category)| + 1
    ensures rows1 == rows0 + RowsFor(src, LabelsOf(labels[..j + 1], category), colors, id0)
  {
    var d := Detected(name, category);
    LabelGrows(labels, j, category, name);
    StepRows(rows0, src, LabelsOf(labels[..j], category), LabelsOf(labels[..j + 1], category), d, colors, id0, row);
  }

  /** The same row's summary goes at the end of the returned list. */
  lemma LabelSummaryStep(labels: seq<Value>, j: nat, category: Option<string>, name: string, items0: seq<Summary>,
                         src: Source, colors: Value, id0: nat, row: Row)
    requires j < |labels| && !Throws(labels[..j]) && LabelOf(labels[j]) == Some(name) && name != ""
    requires row == Row(id0 + |LabelsOf(labels[..j], category)|, src, name, category, colors)
    requires items0 == Summaries(RowsFor(src, LabelsOf(labels[..j], category), colors, id0))
    ensures items0 + [Summary(row.id, row.name, row.category, row.colors)]
      == Summaries(RowsFor(src, LabelsOf(labels[..j + 1], category), colors, id0))
  {
    var d := Detected(name, category);
    LabelGrows(labels, j, category, name);
    StepSummaries(src, LabelsOf(labels[..j], category), LabelsOf(labels[..j + 1], category), d, colors, id0, row);
  }

  /** A non-blank label adds its row after the rows of the labels before it. */
  lemma LabelGrows(labels: seq<Value>, j: nat, category: Option<string>, name: string)
    requires j < |labels| && !Throws(labels[..j]) && LabelOf(labels[j]) == Some(name) && name != ""
    ensures LabelsOf(labels[..j + 1], category) == LabelsOf(labels[..j], category) + [Detected(name, category)]
  {
    LabelsSnoc(labels, j, category);
  }

  /** Category `c`'s rows follow the rows of the categories before it, in the table and in the returned list. */
  lemma CategoryStep(cats: Entries, c: nat, rows0: seq<Row>, rows1: seq<Row>, items0: seq<Summary>, more: seq<Summary>,
                     src: Source, colors: Value, id0: nat, id1: nat)
    requires c < |cats| && !CatsThrow(cats[..c])
    requires id1 == id0 + |DetectedOf(cats[..c])|
    requires rows1 == rows0 + RowsFor(src, DetectedOf(cats[..c]), colors, id0)
      + RowsFor(src, LabelsOf(CastToList(cats[c].1), CategoryOf(cats[c].0)), colors, id1)
    requires items0 == Summaries(RowsFor(src, DetectedOf(cats[..c]), colors, id0))
    requires more == Summaries(RowsFor(src, LabelsOf(CastToList(cats[c].1), CategoryOf(cats[c].0)), colors, id1))
    ensures id1 + |LabelsOf(CastToList(cats[c].1), CategoryOf(cats[c].0))| == id0 + |DetectedOf(cats[..c + 1])|
    ensures rows1 == rows0 + RowsFor(src, DetectedOf(cats[..c + 1]), colors, id0)
    ensures items0 + more == Summaries(RowsFor(src, DetectedOf(cats[..c + 1]), colors, id0))
  {
    var done := DetectedOf(cats[..c]);
    var es := LabelsOf(CastToList(cats[c].1), CategoryOf(cats[c].0));
    DetectedSnoc(cats, c);
    var a, b := RowsFor(src, done, colors, id0), RowsFor(src, es, colors, id1);
    StepCategory(a, b, items0, more, src, done, es, colors, id0, id1);
    AppendAssoc(rows0, a, b);
  }

  /** `outfit_detected_items`, with the auto-increment counter. */
  class DetectedItemTable {
    var rows: seq<Row>
    var nextId: nat

    /** The auto-increment counter starts at 1 and moves with every row created. */
    predicate Valid()
      reads this
    {
      nextId == |rows| + 1
    }

    constructor ()
      ensures Valid() && rows == []
    {
      rows := [];
      nextId := 1;
    }

    /** `OutfitDetectedItem::create`: the row gets the next id. */
    method Create(src: Source, name: string, category: Option<string>, colors: Value) returns (row: Row)
      requires Valid()
      modifies this
      ensures Valid()
      ensures row == Row(old(nextId), src, name, category, colors)
      ensures rows == old(rows) + [row] && nextId == old(nextId) + 1
    {
      row := Row(nextId, src, name, category, colors);
      assert (rows + [row])[..|rows|] == rows;
      rows := rows + [row];
      nextId := nextId + 1;
    }

    /**
      * One turn of the inner loop: the cast throws on an array (`thrown`);
      * otherwise a row when the label trims to a non-empty string, nothing
      * when it trims to "".
      */
    method PersistLabel(src: Source, labels: seq<Value>, j: nat, category: Option<string>, colors: Value,
                        ghost rows0: seq<Row>, ghost id0: nat, items: seq<Summary>) returns (items': seq<Summary>, thrown: bool)
      requires Valid() && j < |labels| && !Throws(labels[..j])
      requires rows == rows0 + RowsFor(src, LabelsOf(labels[..j], category), colors, id0)
      requires nextId == id0 + |LabelsOf(labels[..j], category)|
      requires items == Summaries(RowsFor(src, LabelsOf(labels[..j], category), colors, id0))
      modifies this
      ensures Valid()
      ensures thrown <==> labels[j].Arr?
      ensures thrown ==>
        && Throws(labels) && LabelsOf(labels, category) == LabelsOf(labels[..j], category)
        && rows == old(rows) && nextId == old(nextId) && items' == items
      ensures !thrown ==>
        && !Throws(labels[..j + 1])
        && rows == rows0 + RowsFor(src, LabelsOf(labels[..j + 1], category), colors, id0)
        && nextId == id0 + |LabelsOf(labels[..j + 1], category)|
        && items' == Summaries(RowsFor(src, LabelsOf(labels[..j + 1], category), colors, id0))
    {
      if labels[j].Arr? {
        ThrowStep(labels, j, category);
        return items, true;
      }
      var name := LabelOf(labels[j]).value;
      if name != "" {
        var row := Create(src, name, category, colors);
        LabelStep(labels, j, category, name, rows0, rows, src, colors, id0, row);
        LabelSummaryStep(labels, j, category, name, items, src, colors, id0, row);
        items' := items + [Summary(row.id, row.name, row.category, row.colors)];
      } else {
        BlankStep(labels, j, category);
        items' := items;
      }
      NoThrowStep(labels, j);
      thrown := false;
    }

    /**
      * The inner loop of `persistDetectedItems`: the labels of one category,
      * until a label that is an array makes the cast throw (`thrown`).
      */
    method PersistLabels(src: Source, labels: seq<Value>, category: Option<string>, colors: Value)
      returns (items: seq<Summary>, thrown: bool)
      requires Valid()
      modifies this
      ensures Valid()
      ensures thrown <==> Throws(labels)
      ensures var ds := LabelsOf(labels, category);
        && rows == old(rows) + RowsFor(src, ds, colors, old(nextId))
        && nextId == old(nextId) + |ds|
        && items == Summaries(RowsFor(src, ds, colors, old(nextId)))
    {
      ghost var rows0, id0 := rows, nextId;
      items := [];
      var j := 0;
      while j < |labels|
        invariant 0 <= j <= |labels|
        invariant Valid()
        invariant !Throws(labels[..j])
        invariant rows == rows0 + RowsFor(src, LabelsOf(labels[..j], category), colors, id0)
        invariant nextId == id0 + |LabelsOf(labels[..j], category)|
        invariant items == Summaries(RowsFor(src, LabelsOf(labels[..j], category), colors, id0))
      {
        var stop;
        items, stop := PersistLabel(src, labels, j, category, colors, rows0, id0, items);
        if stop {
          return items, true;
        }
        j := j + 1;
      }
      assert labels[..|labels|] == labels;
      thrown := false;
    }

    /** The outer loop of `persistDetectedItems`: every category's labels, in order, until one throws. */
    method PersistCategories(src: Source, cats: Entries, colors: Value) returns (items: seq<Summary>, thrown: bool)
      requires Valid()
      modifies this
      ensures Valid()
      ensures thrown <==> CatsThrow(cats)
      ensures var ds := DetectedOf(cats);
        && rows == old(rows) + RowsFor(src, ds, colors, old(nextId))
        && nextId == old(nextId) + |ds|
        && items == Summaries(RowsFor(src, ds, colors, old(nextId)))
    {
      ghost var rows0, id0 := rows, nextId;
      ghost var ds: seq<Detected> := [];
      items := [];
      var c := 0;
      while c < |cats|
        invariant 0 <= c <= |cats|
        invariant Valid()
        invariant !CatsThrow(cats[..c]) && ds == DetectedOf(cats[..c])
        invariant rows == rows0 + RowsFor(src, ds, colors, id0)
        invariant nextId == id0 + |ds|
        invariant items == Summaries(RowsFor(src, ds, colors, id0))
      {
        ghost var id1 := nextId;
        var more, stop := PersistLabels(src, CastToList(cats[c].1), CategoryOf(cats[c].0), colors);
        CategoryStep(cats, c, rows0, rows, items, more, src, colors, id0, id1);
        items := items + more;
        ds := DetectedOf(cats[..c + 1]);
        if stop {
          CatsThrowStep(cats, c);
          assert CatsThrow(cats) && DetectedOf(cats) == ds;
          return items, true;
        }
        CatsNoThrowStep(cats, c);
        c := c + 1;
      }
      assert cats[..|cats|] == cats;
      assert !CatsThrow(cats) && DetectedOf(cats) == ds;
      thrown := false;
    }

    /**
      * `persistDetectedItems`: the labels under `items`, with the payload's
      * `colors`. An array label throws (`None`); the rows created before it stay.
      */
    method Persist(src: Source, vision: Entries) returns (r: Option<seq<Summary>>)
      requires Valid()
      modifies this
      ensures Valid()
      ensures r.None? <==> CatsThrow(Categories(vision))
      ensures var ds := DetectedOf(Categories(vision));
        && rows == old(rows) + RowsFor(src, ds, ColorsOf(vision), old(nextId))
        && nextId == old(nextId) + |ds|
        && (r.Some? ==> r.value == Summaries(RowsFor(src, ds, ColorsOf(vision), old(nextId))))
    {
      var items, thrown := PersistCategories(src, Categories(vision), ColorsOf(vision));
      r := if thrown then None else Some(items);
    }
  }
}
