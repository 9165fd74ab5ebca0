/** `df.groupby("_idMutation").agg({...})`: one row per distinct non-null
    transaction id, groups in ascending key order, `surface` and `nbRoom`
    summed with missing values counted as zero, every other column taking
    the first non-missing value of its group in row order. */
module Aggregation {
  import opened Wrappers
  import opened Sequences
  import opened Text
  import opened Schema

  /** How a column is combined within a group: the group key itself, "first" or "sum". */
  datatype Agg = Key | First | Sum

  function AggOf(f: Field): Agg {
    match f
    case IdMutation => Key
    case Surface | NbRoom => Sum
    case _ => First
  }

  /** The "first" aggregation: the first non-missing value of column `f` in `g`;
      `FirstValueSpec` states what it picks. */
  function FirstValue(g: seq<Row>, f: Field): (v: Value)
    ensures Conforms(v, DtypeOf(f))
    decreases |g|
  {
    if g == [] then Null
    else if Cell(g[0], f) != Null then Cell(g[0], f) else FirstValue(g[1..], f)
  }

  /** "first" is missing exactly when the whole column of the group is, and
      otherwise it is the value of one of the group's rows. */
  lemma {:induction false} FirstValueSpec(g: seq<Row>, f: Field)
    ensures FirstValue(g, f) == Null <==> forall r :: r in g ==> Cell(r, f) == Null
    ensures FirstValue(g, f) != Null ==> exists r :: r in g && Cell(r, f) == FirstValue(g, f)
    decreases |g|
  {
    if g != [] {
      assert g == [g[0]] + g[1..];
      FirstValueSpec(g[1..], f);
    }
  }

  /** "first" picks exactly the value at the earliest row where the column is present. */
  lemma {:induction false} FirstValueAt(g: seq<Row>, f: Field, i: nat)
    requires i < |g| && Cell(g[i], f) != Null
    requires forall j :: 0 <= j < i ==> Cell(g[j], f) == Null
    ensures FirstValue(g, f) == Cell(g[i], f)
    decreases i
  {
    if i > 0 {
      FirstValueAt(g[1..], f, i - 1);
    }
  }

  /** The contribution of one cell to a "sum": a missing value counts as zero. */
  function NumOrZero(v: Value): real {
    match v
    case Num(x) => x
    case Int(n) => n as real
    case _ => 0.0
  }

  /** The "sum" aggregation of column `f` over `g`. */
  function SumValue(g: seq<Row>, f: Field): (total: real)
    ensures (forall r :: r in g ==> Cell(r, f) == Null) ==> total == 0.0
    decreases |g|
  {
    if g == [] then 0.0
    else
      assert g == [g[0]] + g[1..];
      NumOrZero(Cell(g[0], f)) + SumValue(g[1..], f)
  }

  lemma {:induction false} SumValueAppend(g: seq<Row>, h: seq<Row>, f: Field)
    ensures SumValue(g + h, f) == SumValue(g, f) + SumValue(h, f)
    decreases |g|
  {
    if g == [] {
      assert g + h == h;
    } else {
      assert (g + h)[0] == g[0];
      assert (g + h)[1..] == g[1..] + h;
      SumValueAppend(g[1..], h, f);
    }
  }

  /** The value of column `f` in the output row of group `k` whose rows are `g`. */
  function Aggregated(k: string, g: seq<Row>, f: Field): Value {
    match AggOf(f)
    case Key => Text(k)
    case First => FirstValue(g, f)
    case Sum => Num(SumValue(g, f))
  }

  /** The output row of one group; `AggregateCell` states its columns. */
  function Aggregate(k: string, g: seq<Row>): Row
  {
    Row(
      Some(k),
      DateOf(FirstValue(g, CreatedAt)),
      TextOf(FirstValue(g, TypeOfSearch)),
      RealOf(FirstValue(g, Price)),
      IntOf(FirstValue(g, StreetNumber)),
      TextOf(FirstValue(g, HouseNumber)),
      TextOf(FirstValue(g, StreetName)),
      TextOf(FirstValue(g, PostalCode)),
      TextOf(FirstValue(g, City)),
      TextOf(FirstValue(g, Departement)),
      TextOf(FirstValue(g, TypeOfBuilding)),
      Some(SumValue(g, Surface)),
      Some(SumValue(g, NbRoom)),
      TextOf(FirstValue(g, Longitude)),
      TextOf(FirstValue(g, Latitude)))
  }

  /** Every column of a group's output row is its aggregation: the key, the
      first non-missing value, or the sum. */
  lemma AggregateCell(k: string, g: seq<Row>, f: Field)
    ensures Cell(Aggregate(k, g), f) == Aggregated(k, g, f)
  {
    var v := FirstValue(g, f);
    match f
    case IdMutation =>
    case CreatedAt =>
    case TypeOfSearch =>
    case Price =>
    case StreetNumber =>
    case HouseNumber =>
    case StreetName =>
    case PostalCode =>
    case City =>
    case Departement =>
    case TypeOfBuilding =>
    case Surface =>
    case NbRoom =>
    case Longitude =>
    case Latitude =>
  }

  /** The non-missing transaction ids of a table. */
  function Ids(rows: seq<Row>): set<string> {
    set r | r in rows && r.idMutation.Some? :: r.idMutation.value
  }

  predicate StrictlySorted(keys: seq<string>) {
    forall i, j :: 0 <= i < j < |keys| ==> LexLess(keys[i], keys[j])
  }

  /** Insertion of a key into an ascending key list, keeping one copy. */
  function Insert(k: string, keys: seq<string>): (r: seq<string>)
    ensures forall x :: x in r <==> x == k || x in keys
    decreases |keys|
  {
    if keys == [] then [k]
    else if k == keys[0] then keys
    else if LexLess(k, keys[0]) then [k] + keys
    else [keys[0]] + Insert(k, keys[1..])
  }

  lemma {:induction false} InsertSorted(k: string, keys: seq<string>)
    requires StrictlySorted(keys)
    ensures StrictlySorted(Insert(k, keys))
    decreases |keys|
  {
    if keys != [] && k != keys[0] {
      if LexLess(k, keys[0]) {
        var r := [k] + keys;
        forall i, j | 0 <= i < j < |r| ensures LexLess(r[i], r[j]) {
          if i == 0 && j > 1 {
            LexLessTransitive(k, keys[0], keys[j - 1]);
          }
        }
      } else {
        LexLessTotal(k, keys[0]);
        InsertSorted(k, keys[1..]);
        var r := [keys[0]] + Insert(k, keys[1..]);
        forall i, j | 0 <= i < j < |r| ensures LexLess(r[i], r[j]) {
          if i == 0 {
            assert r[j] in Insert(k, keys[1..]);
          }
        }
      }
    }
  }

  /** The group keys in the order pandas emits them: ascending, without repetition. */
  function SortedIds(rows: seq<Row>): (keys: seq<string>)
    ensures StrictlySorted(keys)
    ensures forall k :: k in keys <==> k in Ids(rows)
    decreases |rows|
  {
    if rows == [] then []
    else
      assert rows == [rows[0]] + rows[1..];
      var rest := SortedIds(rows[1..]);
      match rows[0].idMutation
      case None => rest
      case Some(k) => InsertSorted(k, rest); Insert(k, rest)
  }

  lemma {:induction false} DistinctCardinality(keys: seq<string>)
    requires StrictlySorted(keys)
    ensures |set k | k in keys| == |keys|
    decreases |keys|
  {
    if keys != [] {
      var tail := keys[1..];
      DistinctCardinality(tail);
      LexLessIrreflexive(keys[0]);
      assert keys[0] !in tail;
      assert (set k | k in keys) == {keys[0]} + (set k | k in tail);
    }
  }

  lemma IdCount(rows: seq<Row>)
    ensures |SortedIds(rows)| == |Ids(rows)|
  {
    var keys := SortedIds(rows);
    DistinctCardinality(keys);
    assert (set k | k in keys) == Ids(rows);
  }

  function HasId(k: string): Row -> bool {
    (r: Row) => r.idMutation == Some(k)
  }

  /** The rows of group `k`, each as often as in the input, in input order. */
  function GroupOf(rows: seq<Row>, k: string): (g: seq<Row>)
    ensures forall r :: r in g <==> r in rows && r.idMutation == Some(k)
    ensures forall r :: multiset(g)[r] == if r.idMutation == Some(k) then multiset(rows)[r] else 0
    ensures IsSubsequence(g, rows)
  {
    FilterCounts(HasId(k), rows);
    Filter(HasId(k), rows)
  }

  /** The output row of group `k` of `rows`. */
  function GroupRow(rows: seq<Row>, k: string): Row {
    Aggregate(k, GroupOf(rows, k))
  }

  /** The output rows of the groups `keys`, in that order. */
  function GroupRows(rows: seq<Row>, keys: seq<string>): (out: seq<Row>)
    ensures |out| == |keys|
    ensures forall i :: 0 <= i < |keys| ==> out[i] == GroupRow(rows, keys[i]) && out[i].idMutation == Some(keys[i])
  {
    seq(|keys|, i requires 0 <= i < |keys| => GroupRow(rows, keys[i]))
  }

  /** `df.groupby("_idMutation", as_index=True).agg(...)`; the key becomes the
      output row's `idMutation`. One row per distinct non-missing id, in
      ascending id order, each the aggregate of its group. */
  function Groupby(rows: seq<Row>): (out: seq<Row>)
    ensures |out| == |Ids(rows)|
    ensures forall i :: 0 <= i < |out| ==> out[i].idMutation.Some? && out[i].idMutation.value in Ids(rows)
    ensures forall i, j :: 0 <= i < j < |out| ==> LexLess(out[i].idMutation.value, out[j].idMutation.value)
    ensures forall i :: 0 <= i < |out| ==> out[i] == GroupRow(rows, out[i].idMutation.value)
  {
    IdCount(rows);
    GroupRows(rows, SortedIds(rows))
  }

  /** Every id of the input has its output row. */
  lemma GroupbyCoversIds(rows: seq<Row>, k: string)
    requires k in Ids(rows)
    ensures exists i :: 0 <= i < |Groupby(rows)| && Groupby(rows)[i].idMutation == Some(k)
  {
    var keys := SortedIds(rows);
    var i :| 0 <= i < |keys| && keys[i] == k;
    assert Groupby(rows)[i] == GroupRow(rows, k);
  }

  /** Each output column is the aggregation of its group: the id, the sum of
      `surface` / `nbRoom` with missing values as zero, and otherwise the
      first non-missing value in input order. */
  lemma GroupbyCells(rows: seq<Row>, i: nat, f: Field)
    requires i < |Groupby(rows)|
    ensures Cell(Groupby(rows)[i], f)
      == Aggregated(Groupby(rows)[i].idMutation.value, GroupOf(rows, Groupby(rows)[i].idMutation.value), f)
  {
    var k := Groupby(rows)[i].idMutation.value;
    AggregateCell(k, GroupOf(rows, k), f);
  }

  /** No transaction id occurs twice in the grouped table. */
  lemma GroupbyIdsUnique(rows: seq<Row>)
    ensures forall i, j :: 0 <= i < |Groupby(rows)| && 0 <= j < |Groupby(rows)| && i != j ==>
      Groupby(rows)[i].idMutation != Groupby(rows)[j].idMutation
  {
    var out := Groupby(rows);
    forall i, j | 0 <= i < |out| && 0 <= j < |out| && i != j
      ensures out[i].idMutation != out[j].idMutation
    {
      LexLessIrreflexive(out[i].idMutation.value);
    }
  }

  lemma GroupbyEmpty()
    ensures Groupby([]) == []
  {
  }

  /** The rows of one transaction collapse into a single output row. */
  lemma SharedIdGroup(g: seq<Row>, k: string)
    requires g != [] && forall r :: r in g ==> r.idMutation == Some(k)
    ensures Groupby(g) == [Aggregate(k, g)]
  {
    assert g[0] in g;
    assert Ids(g) == {k};
    var out := Groupby(g);
    assert |out| == 1;
    assert out[0].idMutation.value == k;
    FilterAllPass(HasId(k), g);
    assert out[0] == GroupRow(g, k);
  }

  /** Two lots of one transaction give one output row whose surface is the
      sum of theirs; a "first" column of that row holds the first lot's value
      when that is present. */
  lemma TwoLots(g: seq<Row>, k: string, s: real, t: real, f: Field)
    requires |g| == 2 && g[0].idMutation == g[1].idMutation == Some(k)
    requires g[0].surface == Some(s) && g[1].surface == Some(t)
    requires AggOf(f) == First && Cell(g[0], f) != Null
    ensures |Groupby(g)| == 1
    ensures Groupby(g)[0].surface == Some(s + t)
    ensures Cell(Groupby(g)[0], f) == Cell(g[0], f)
  {
    SharedIdGroup(g, k);
    TwoLotsGroup(g, k, s, t);
    FirstOfGroup(k, g, f);
  }

  lemma TwoLotsGroup(g: seq<Row>, k: string, s: real, t: real)
    requires |g| == 2 && g[0].idMutation == g[1].idMutation == Some(k)
    requires g[0].surface == Some(s) && g[1].surface == Some(t)
    ensures |Groupby(g)| == 1 && Groupby(g)[0].surface == Some(s + t)
  {
    SharedIdGroup(g, k);
    TwoLotsSurface(g, k, s, t);
  }

  lemma TwoLotsSurface(g: seq<Row>, k: string, s: real, t: real)
    requires |g| == 2 && g[0].surface == Some(s) && g[1].surface == Some(t)
    ensures Aggregate(k, g).surface == Some(s + t)
  {
    TwoLotsSum(g, s, t);
    AggregateSurface(k, g, s + t);
  }

  lemma TwoLotsSum(g: seq<Row>, s: real, t: real)
    requires |g| == 2 && g[0].surface == Some(s) && g[1].surface == Some(t)
    ensures SumValue(g, Surface) == s + t
  {
    SumOfTwo(g, Surface);
  }

  /** The surface of a group's row is the group's surface sum. */
  lemma AggregateSurface(k: string, g: seq<Row>, total: real)
    requires SumValue(g, Surface) == total
    ensures Aggregate(k, g).surface == Some(total)
  {
  }

  lemma AggregatePrice(k: string, g: seq<Row>)
    ensures RealCell(Aggregate(k, g).price) == FirstValue(g, Price)
  {
  }

  lemma AggregateSearch(k: string, g: seq<Row>)
    ensures TextCell(Aggregate(k, g).typeOfSearch) == FirstValue(g, TypeOfSearch)
  {
  }

  /** A "first" column of a group's row holds the group's first value when present. */
  lemma FirstOfGroup(k: string, g: seq<Row>, f: Field)
    requires g != [] && AggOf(f) == First && Cell(g[0], f) != Null
    ensures Cell(Aggregate(k, g), f) == Cell(g[0], f)
  {
    AggregateCell(k, g, f);
    FirstValueAt(g, f, 0);
  }

  lemma SumOfTwo(g: seq<Row>, f: Field)
    requires |g| == 2
    ensures SumValue(g, f) == NumOrZero(Cell(g[0], f)) + NumOrZero(Cell(g[1], f))
  {
    assert g[1..][1..] == [];
  }
}
