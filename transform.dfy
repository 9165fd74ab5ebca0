/** The transform stage of the current pipeline: null filtering, value
    normalisation, two numeric range validations, aggregation by
    transaction id, and the optional save of the result. */
module Transform {
  import opened Wrappers
  import opened Sequences
  import opened Text
  import opened Schema
  import opened Aggregation

  // ---------------------------------------------------------------- drop_na

  /** The `how` argument of `dropna`: drop when any / when all of the subset is missing. */
  datatype How = Any | All

  predicate KeptByDropna(r: Row, subset: seq<Field>, how: How) {
    match how
    case Any => forall f :: f in subset ==> Cell(r, f) != Null
    case All => exists f :: f in subset && Cell(r, f) != Null
  }

  function DropnaKeeps(subset: seq<Field>, how: How): Row -> bool {
    (r: Row) => KeptByDropna(r, subset, how)
  }

  /** `df.dropna(subset=subset, how=how)`. */
  function Dropna(rows: seq<Row>, subset: seq<Field>, how: How): (out: seq<Row>)
    ensures forall r :: r in out <==> r in rows && KeptByDropna(r, subset, how)
    ensures forall r :: multiset(out)[r] == if KeptByDropna(r, subset, how) then multiset(rows)[r] else 0
    ensures IsSubsequence(out, rows)
  {
    FilterCounts(DropnaKeeps(subset, how), rows);
    Filter(DropnaKeeps(subset, how), rows)
  }

  const MandatoryRows: seq<Field> := [TypeOfSearch, Price]
  const OptionalRows: seq<Field> := [TypeOfBuilding, Surface, NbRoom]

  /** A row that passes both null rules of `drop_na`. */
  predicate Complete(r: Row) {
    r.typeOfSearch.Some? && r.price.Some?
    && (r.typeOfBuilding.Some? || r.surface.Some? || r.nbRoom.Some?)
  }

  lemma NullRules(r: Row)
    ensures KeptByDropna(r, MandatoryRows, Any) && KeptByDropna(r, OptionalRows, All) <==> Complete(r)
  {
    if r.typeOfSearch.Some? && r.price.Some? {
      forall f | f in MandatoryRows ensures Cell(r, f) != Null { }
    } else {
      assert Cell(r, TypeOfSearch) == Null || Cell(r, Price) == Null;
    }
    if r.typeOfBuilding.Some? {
      assert Cell(r, TypeOfBuilding) != Null;
    } else if r.surface.Some? {
      assert Cell(r, Surface) != Null;
    } else if r.nbRoom.Some? {
      assert Cell(r, NbRoom) != Null;
    }
  }

  /** The table left by `drop_na`: exactly the complete rows, each as often
      as in the input, in input order. */
  function DropNaRows(rows: seq<Row>): (out: seq<Row>)
    ensures forall r :: r in out <==> r in rows && Complete(r)
    ensures forall r :: multiset(out)[r] == if Complete(r) then multiset(rows)[r] else 0
    ensures forall r :: r in out ==> r.typeOfSearch.Some? && r.price.Some?
    ensures IsSubsequence(out, rows)
  {
    var mandatory := Dropna(rows, MandatoryRows, Any);
    var out := Dropna(mandatory, OptionalRows, All);
    SubsequenceTransitive(out, mandatory, rows);
    assert forall r :: (r in out <==> r in rows && Complete(r))
                       && multiset(out)[r] == (if Complete(r) then multiset(rows)[r] else 0) by {
      forall r ensures (r in out <==> r in rows && Complete(r))
                       && multiset(out)[r] == (if Complete(r) then multiset(rows)[r] else 0) {
        NullRules(r);
      }
    }
    out
  }

  /** The two dropped rows of the null rules: a sale with neither a building
      type, a surface nor a room count, and a row without `typeOfSearch`. */
  lemma NullRuleExamples(r: Row)
    ensures r.typeOfBuilding.None? && r.surface.None? && r.nbRoom.None? ==> DropNaRows([r]) == []
    ensures r.typeOfSearch.None? ==> DropNaRows([r]) == []
  {
  }

  // --------------------------------------------------- update_fields_values

  /** `typeOfSearch`: lowercase, then "vente" becomes "achat". */
  function NormalizeSearch(v: Option<string>): (w: Option<string>)
    ensures w.None? <==> v.None?
    ensures v.Some? && EqualIgnoringCase(v.value, "vente") ==> w == Some("achat")
    ensures v.Some? && !EqualIgnoringCase(v.value, "vente") ==> w == Some(Lower(v.value))
    ensures w.Some? ==> IsLowercase(w.value) && w.value != "vente"
  {
    match v
    case None => None
    case Some(s) =>
      LowerEqualsIff(s, "vente");
      var l := Lower(s);
      Some(if l == "vente" then "achat" else l)
  }

  /** `typeOfBuilding`: lowercase. */
  function NormalizeBuilding(v: Option<string>): (w: Option<string>)
    ensures w.None? <==> v.None?
    ensures v.Some? ==> IsLowercase(w.value) && EqualIgnoringCase(w.value, v.value)
  {
    match v
    case None => None
    case Some(s) => Some(Lower(s))
  }

  /** One row after `update_fields_values`: only `typeOfBuilding` and
      `typeOfSearch` change. */
  function NormalizeRow(r: Row): (n: Row)
    ensures n.(typeOfBuilding := r.typeOfBuilding, typeOfSearch := r.typeOfSearch) == r
    ensures n.typeOfBuilding == NormalizeBuilding(r.typeOfBuilding)
    ensures n.typeOfSearch == NormalizeSearch(r.typeOfSearch)
  {
    r.(typeOfBuilding := NormalizeBuilding(r.typeOfBuilding), typeOfSearch := NormalizeSearch(r.typeOfSearch))
  }

  /** The table after `update_fields_values`: same length, row by row. */
  function NormalizedRows(rows: seq<Row>): (out: seq<Row>)
    ensures |out| == |rows|
    ensures forall i :: 0 <= i < |rows| ==> out[i] == NormalizeRow(rows[i])
  {
    seq(|rows|, i requires 0 <= i < |rows| => NormalizeRow(rows[i]))
  }

  lemma NormalizeRowIdempotent(r: Row)
    ensures NormalizeRow(NormalizeRow(r)) == NormalizeRow(r)
  {
    match r.typeOfBuilding {
      case None =>
      case Some(s) => LowerIdempotent(s);
    }
    match r.typeOfSearch {
      case None =>
      case Some(s) =>
        var w := NormalizeSearch(r.typeOfSearch).value;
        LowerOfLowercase(w);
    }
  }

  /** Applying `update_fields_values` twice gives the table it gives once. */
  lemma NormalizedRowsIdempotent(rows: seq<Row>)
    ensures NormalizedRows(NormalizedRows(rows)) == NormalizedRows(rows)
  {
    forall i | 0 <= i < |rows| ensures NormalizedRows(NormalizedRows(rows))[i] == NormalizedRows(rows)[i] {
      NormalizeRowIdempotent(rows[i]);
    }
  }

  /** The examples of the normaliser: "VENTE" and "Achat" both become "achat". */
  lemma NormalizeSearchExamples()
    ensures NormalizeSearch(Some("VENTE")) == Some("achat")
    ensures NormalizeSearch(Some("Vente")) == Some("achat")
    ensures NormalizeSearch(Some("Achat")) == Some("achat")
  {
    assert EqualIgnoringCase("VENTE", "vente");
    assert EqualIgnoringCase("Vente", "vente");
    assert !EqualIgnoringCase("Achat", "vente") by {
      assert LowerChar("Achat"[0]) != LowerChar("vente"[0]);
    }
    assert Lower("Achat") == "achat";
  }

  // --------------------------------------------------------- validation_int

  /** What `df[col] ...` can raise. */
  datatype Error = KeyError(column: string) | TypeError(column: string)

  /** `(v > lowerBound) & (v < upperBound)` for one cell; missing is False. */
  predicate Within(v: Value, lowerBound: int, upperBound: int) {
    match v
    case Num(x) => lowerBound as real < x < upperBound as real
    case Int(n) => lowerBound < n < upperBound
    case _ => false
  }

  function WithinPred(f: Field, lowerBound: int, upperBound: int): Row -> bool {
    (r: Row) => Within(Cell(r, f), lowerBound, upperBound)
  }

  /** The boolean-mask selection `df[(df[col] > lower) & (df[col] < upper)]`. */
  function InRange(rows: seq<Row>, f: Field, lowerBound: int, upperBound: int): (out: seq<Row>)
    ensures forall r :: r in out <==> r in rows && Within(Cell(r, f), lowerBound, upperBound)
    ensures forall r :: multiset(out)[r] == if Within(Cell(r, f), lowerBound, upperBound) then multiset(rows)[r] else 0
    ensures IsSubsequence(out, rows)
  {
    FilterCounts(WithinPred(f, lowerBound, upperBound), rows);
    Filter(WithinPred(f, lowerBound, upperBound), rows)
  }

  /** `validation_int(df, col, upper_bound, lower_bound)`: keep the rows whose
      `col` lies strictly between the bounds. A missing column raises
      `KeyError`; comparing a date column, or a text column holding a value,
      with a number raises `TypeError`. */
  function ValidationInt(rows: seq<Row>, col: string, upperBound: int, lowerBound: int): (res: Result<seq<Row>, Error>)
    ensures FieldNamed(col).None? <==> res == Failure(KeyError(col))
    ensures res.Success? ==> FieldNamed(col).Some? && IsSubsequence(res.value, rows)
    ensures res.Success? ==>
      forall r :: r in res.value <==> r in rows && Within(Cell(r, FieldNamed(col).value), lowerBound, upperBound)
    ensures res.Success? ==>
      forall r :: multiset(res.value)[r]
        == if Within(Cell(r, FieldNamed(col).value), lowerBound, upperBound) then multiset(rows)[r] else 0
    ensures FieldNamed(col).Some? && DtypeOf(FieldNamed(col).value) in {Float, NullableInt} ==> res.Success?
    ensures FieldNamed(col).Some? && DtypeOf(FieldNamed(col).value) == Datetime ==> res == Failure(TypeError(col))
  {
    match FieldNamed(col)
    case None => Failure(KeyError(col))
    case Some(f) =>
      if DtypeOf(f) == Datetime || exists r :: r in rows && Cell(r, f).Text? then Failure(TypeError(col))
      else Success(InRange(rows, f, lowerBound, upperBound))
  }

  /** On a numeric column the validation always succeeds with the range selection. */
  lemma NumericValidation(rows: seq<Row>, col: string, f: Field, upperBound: int, lowerBound: int)
    requires FieldNamed(col) == Some(f) && DtypeOf(f) in {Float, NullableInt}
    ensures ValidationInt(rows, col, upperBound, lowerBound) == Success(InRange(rows, f, lowerBound, upperBound))
  {
    assert !exists r :: r in rows && Cell(r, f).Text? by {
      forall r | r in rows ensures !Cell(r, f).Text? {
        assert Conforms(Cell(r, f), DtypeOf(f));
      }
    }
  }

  /** The price bounds of the driver are strict at both ends. */
  lemma PriceBoundaries(r: Row)
    ensures r.price == Some(4999.0) ==> ValidationInt([r], "price", 1999999, 4999) == Success([])
    ensures r.price == Some(5000.0) ==> ValidationInt([r], "price", 1999999, 4999) == Success([r])
    ensures r.price == Some(1999998.0) ==> ValidationInt([r], "price", 1999999, 4999) == Success([r])
    ensures r.price == Some(1999999.0) ==> ValidationInt([r], "price", 1999999, 4999) == Success([])
    ensures r.price == None ==> ValidationInt([r], "price", 1999999, 4999) == Success([])
  {
    NumericValidation([r], "price", Price, 1999999, 4999);
    var keep := WithinPred(Price, 4999, 1999999);
    FilterCons(keep, r, []);
    assert [r] + [] == [r];
    assert Filter(keep, []) == [];
    assert keep(r) == Within(Cell(r, Price), 4999, 1999999);
  }

  /** The price and surface validations give the same table in either order. */
  lemma ValidationsCommute(rows: seq<Row>)
    ensures ValidationInt(rows, "price", 1999999, 4999).Success?
    ensures ValidationInt(rows, "surface", 1001, 9).Success?
    ensures ValidationInt(ValidationInt(rows, "price", 1999999, 4999).value, "surface", 1001, 9)
         == ValidationInt(ValidationInt(rows, "surface", 1001, 9).value, "price", 1999999, 4999)
  {
    var byPrice := InRange(rows, Price, 4999, 1999999);
    var bySurface := InRange(rows, Surface, 9, 1001);
    NumericValidation(rows, "price", Price, 1999999, 4999);
    NumericValidation(rows, "surface", Surface, 1001, 9);
    SecondValidation(byPrice, bySurface, rows);
  }

  lemma SecondValidation(byPrice: seq<Row>, bySurface: seq<Row>, rows: seq<Row>)
    requires byPrice == InRange(rows, Price, 4999, 1999999)
    requires bySurface == InRange(rows, Surface, 9, 1001)
    ensures ValidationInt(byPrice, "surface", 1001, 9) == ValidationInt(bySurface, "price", 1999999, 4999)
  {
    NumericValidation(byPrice, "surface", Surface, 1001, 9);
    NumericValidation(bySurface, "price", Price, 1999999, 4999);
    FilterCommutes(WithinPred(Surface, 9, 1001), WithinPred(Price, 4999, 1999999), rows);
  }

  // ------------------------------------------------------- save_df, driver

  /** The arguments the driver reads: the year and the optional `save` flag. */
  datatype Args = Args(year: string, save: Option<string>)

  /** A written CSV file: its path and the rows it holds. */
  datatype SavedFile = SavedFile(path: string, rows: seq<Row>)

  /** `save_df`: the table is written only when `args["save"]` is not None. */
  function SaveDf(rows: seq<Row>, args: Args): (written: Option<SavedFile>)
    ensures written.Some? <==> args.save.Some?
    ensures written.Some? ==>
      written.value.rows == rows && written.value.path == "data/dvf_" + args.year + "_updated.csv"
  {
    if args.save.Some? then Some(SavedFile("data/dvf_" + args.year + "_updated.csv", rows)) else None
  }

  /** The table `transform` hands to `save_df`, stage by stage. */
  function Stages(loaded: seq<Row>): Result<seq<Row>, Error> {
    var bounded :- Validations(NormalizedRows(DropNaRows(loaded)));
    Success(Groupby(bounded))
  }

  /** The two validations of the driver: price, then surface. */
  function Validations(cleaned: seq<Row>): Result<seq<Row>, Error> {
    var byPrice :- ValidationInt(cleaned, "price", 1999999, 4999);
    ValidationInt(byPrice, "surface", 1001, 9)
  }

  /** A data frame the stages that work in place update. */
  class Table {
    var rows: seq<Row>

    constructor (loaded: seq<Row>)
      ensures rows == loaded
    {
      rows := loaded;
    }

    /** `drop_na`: two `dropna(..., inplace=True)` calls. */
    method DropNa()
      modifies this
      ensures rows == DropNaRows(old(rows))
    {
      rows := Dropna(rows, MandatoryRows, Any);
      rows := Dropna(rows, OptionalRows, All);
    }

    /** `update_fields_values`: column assignments into the frame. */
    method UpdateFieldsValues()
      modifies this
      ensures rows == NormalizedRows(old(rows))
    {
      rows := NormalizedRows(rows);
    }
  }

  /** `transform(args)`: the loaded table threaded through the stages, then
      saved if asked for. A stage that raises ends the run with its error. */
  method Run(loaded: seq<Row>, args: Args) returns (res: Result<Option<SavedFile>, Error>)
    ensures Stages(loaded).Failure? ==> res == Failure(Stages(loaded).error)
    ensures Stages(loaded).Success? ==> res == Success(SaveDf(Stages(loaded).value, args))
  {
    var df := new Table(loaded);
    df.DropNa();
    df.UpdateFieldsValues();
    var byPrice :- ValidationInt(df.rows, "price", 1999999, 4999);
    var bySurface :- ValidationInt(byPrice, "surface", 1001, 9);
    var grouped := Groupby(bySurface);
    res := Success(SaveDf(grouped, args));
  }


  // ------------------------------------------------ properties of the run

  /** The rows that reach the aggregation: null-filtered, normalised, and
      within both the price and the surface bounds. */
  function Validated(loaded: seq<Row>): seq<Row> {
    InRange(InRange(NormalizedRows(DropNaRows(loaded)), Price, 4999, 1999999), Surface, 9, 1001)
  }

  /** Neither validation of the driver can fail: both columns are numeric. */
  lemma ValidationsSucceed(cleaned: seq<Row>)
    ensures Validations(cleaned) == Success(InRange(InRange(cleaned, Price, 4999, 1999999), Surface, 9, 1001))
  {
    NumericValidation(cleaned, "price", Price, 1999999, 4999);
    NumericValidation(InRange(cleaned, Price, 4999, 1999999), "surface", Surface, 1001, 9);
  }

  /** So `transform` never raises: it aggregates the validated rows. */
  lemma StagesSucceed(loaded: seq<Row>)
    ensures Stages(loaded) == Success(Groupby(Validated(loaded)))
  {
    ValidationsSucceed(NormalizedRows(DropNaRows(loaded)));
  }

  /** A loaded row whose normalised form reaches the aggregation: it passes
      the null rules and its price and surface lie within the bounds. */
  predicate Admitted(y: Row) {
    Complete(y) && Within(Cell(y, Price), 4999, 1999999) && Within(Cell(y, Surface), 9, 1001)
  }

  /** A row reaches the aggregation exactly when it is the normalised form of
      an admitted loaded row; and the rows keep their loaded order. */
  lemma ValidatedRows(loaded: seq<Row>)
    ensures forall x :: x in Validated(loaded) <==> exists y :: y in loaded && Admitted(y) && x == NormalizeRow(y)
    ensures IsSubsequence(Validated(loaded), NormalizedRows(DropNaRows(loaded)))
  {
    var complete := DropNaRows(loaded);
    var cleaned := NormalizedRows(complete);
    var byPrice := InRange(cleaned, Price, 4999, 1999999);
    var v := InRange(byPrice, Surface, 9, 1001);
    forall x ensures x in v <==> exists y :: y in loaded && Admitted(y) && x == NormalizeRow(y) {
      ValidatedRow(loaded, complete, cleaned, v, x);
    }
    SubsequenceTransitive(v, byPrice, cleaned);
  }

  lemma ValidatedRow(loaded: seq<Row>, complete: seq<Row>, cleaned: seq<Row>, v: seq<Row>, x: Row)
    requires complete == DropNaRows(loaded) && cleaned == NormalizedRows(complete)
    requires v == InRange(InRange(cleaned, Price, 4999, 1999999), Surface, 9, 1001)
    ensures x in v <==> exists y :: y in loaded && Admitted(y) && x == NormalizeRow(y)
  {
    if x in v {
      ValidatedFrom(loaded, complete, cleaned, v, x);
    }
    if exists y :: y in loaded && Admitted(y) && x == NormalizeRow(y) {
      var y :| y in loaded && Admitted(y) && x == NormalizeRow(y);
      ValidatedTo(loaded, complete, cleaned, v, y);
    }
  }

  lemma ValidatedFrom(loaded: seq<Row>, complete: seq<Row>, cleaned: seq<Row>, v: seq<Row>, x: Row)
    requires complete == DropNaRows(loaded) && cleaned == NormalizedRows(complete)
    requires v == InRange(InRange(cleaned, Price, 4999, 1999999), Surface, 9, 1001)
    requires x in v
    ensures exists y :: y in loaded && Admitted(y) && x == NormalizeRow(y)
  {
    var i :| 0 <= i < |cleaned| && cleaned[i] == x;
    AdmittedOf(complete[i], x);
    assert complete[i] in complete;
  }

  lemma ValidatedTo(loaded: seq<Row>, complete: seq<Row>, cleaned: seq<Row>, v: seq<Row>, y: Row)
    requires complete == DropNaRows(loaded) && cleaned == NormalizedRows(complete)
    requires v == InRange(InRange(cleaned, Price, 4999, 1999999), Surface, 9, 1001)
    requires y in loaded && Admitted(y)
    ensures NormalizeRow(y) in v
  {
    var i :| 0 <= i < |complete| && complete[i] == y;
    assert cleaned[i] == NormalizeRow(y);
    AdmittedOf(y, NormalizeRow(y));
  }

  /** Normalisation leaves the price and the surface alone. */
  lemma AdmittedOf(y: Row, x: Row)
    requires x == NormalizeRow(y)
    ensures Admitted(y) <==> Complete(y) && Within(Cell(x, Price), 4999, 1999999) && Within(Cell(x, Surface), 9, 1001)
  {
    assert Cell(x, Price) == Cell(y, Price) && Cell(x, Surface) == Cell(y, Surface);
  }

  /** What the driver's filters establish of each row they let through. */
  predicate Bounded(x: Row) {
    && x.typeOfSearch.Some? && IsLowercase(x.typeOfSearch.value) && x.typeOfSearch.value != "vente"
    && Within(Cell(x, Price), 4999, 1999999)
    && Within(Cell(x, Surface), 9, 1001)
  }

  lemma ValidatedBounded(loaded: seq<Row>)
    ensures forall x :: x in Validated(loaded) ==> Bounded(x)
  {
    ValidatedRows(loaded);
    forall x | x in Validated(loaded) ensures Bounded(x) {
      var y :| y in loaded && Admitted(y) && x == NormalizeRow(y);
      AdmittedOf(y, x);
    }
  }

  /** What holds of every row `transform` saves. */
  predicate SavedRow(r: Row) {
    && r.idMutation.Some?
    && r.typeOfSearch.Some? && IsLowercase(r.typeOfSearch.value) && r.typeOfSearch.value != "vente"
    && r.price.Some? && 4999.0 < r.price.value < 1999999.0
    && r.surface.Some? && r.nbRoom.Some?
  }

  /** The output row of a group of bounded rows is a row `transform` may save. */
  lemma GroupRowSaved(v: seq<Row>, k: string)
    requires forall x :: x in v ==> Bounded(x)
    requires k in Ids(v)
    ensures SavedRow(GroupRow(v, k))
  {
    var g := GroupOf(v, k);
    var x :| x in v && x.idMutation == Some(k);
    assert x in g;
    AggregatedPrice(k, g, x);
    AggregatedSearch(k, g, x);
    AggregateSurface(k, g, SumValue(g, Surface));
    AggregateCell(k, g, NbRoom);
  }

  lemma AggregatedPrice(k: string, g: seq<Row>, x: Row)
    requires forall y :: y in g ==> Bounded(y)
    requires x in g
    ensures Aggregate(k, g).price.Some? && 4999.0 < Aggregate(k, g).price.value < 1999999.0
  {
    assert Cell(x, Price) != Null;
    FirstValueSpec(g, Price);
    var p :| p in g && Cell(p, Price) == FirstValue(g, Price);
    assert Bounded(p);
    AggregatePrice(k, g);
  }

  lemma AggregatedSearch(k: string, g: seq<Row>, x: Row)
    requires forall y :: y in g ==> Bounded(y)
    requires x in g
    ensures Aggregate(k, g).typeOfSearch.Some?
    ensures IsLowercase(Aggregate(k, g).typeOfSearch.value) && Aggregate(k, g).typeOfSearch.value != "vente"
  {
    assert Cell(x, TypeOfSearch) != Null;
    FirstValueSpec(g, TypeOfSearch);
    var t :| t in g && Cell(t, TypeOfSearch) == FirstValue(g, TypeOfSearch);
    assert Bounded(t);
    AggregateSearch(k, g);
  }

  /** The table `transform` saves: one row per transaction id that survives
      the filters, no id twice, ids ascending, and every row with a
      normalised `typeOfSearch` and a price strictly within the bounds. */
  lemma SavedTable(loaded: seq<Row>, out: seq<Row>)
    requires Stages(loaded) == Success(out)
    ensures |out| == |Ids(Validated(loaded))|
    ensures forall i :: 0 <= i < |out| ==> out[i].idMutation.Some? && out[i].idMutation.value in Ids(Validated(loaded))
    ensures forall r :: r in out ==> SavedRow(r)
    ensures forall i, j :: 0 <= i < j < |out| ==> LexLess(out[i].idMutation.value, out[j].idMutation.value)
    ensures forall i, j :: 0 <= i < |out| && 0 <= j < |out| && i != j ==> out[i].idMutation != out[j].idMutation
  {
    StagesSucceed(loaded);
    var v := Validated(loaded);
    assert out == Groupby(v);
    GroupbyIdsUnique(v);
    ValidatedBounded(loaded);
    forall r | r in out ensures SavedRow(r) {
      GroupRowSaved(v, r.idMutation.value);
    }
  }

  /** The surface bound holds of every row that is aggregated but not of the
      aggregate: the validation keeps two lots of 600 square metres of one
      transaction, and the saved row of that transaction has 1200. */
  lemma SurfaceBoundNotKept(g: seq<Row>)
    requires |g| == 2 && g[0].idMutation == g[1].idMutation == Some("2021-1")
    requires g[0].surface == Some(600.0) && g[1].surface == Some(600.0)
    ensures InRange(g, Surface, 9, 1001) == g
    ensures |Groupby(g)| == 1 && Groupby(g)[0].surface == Some(1200.0)
    ensures !Within(Cell(Groupby(g)[0], Surface), 9, 1001)
  {
    FilterAllPass(WithinPred(Surface, 9, 1001), g);
    TwoLotsGroup(g, "2021-1", 600.0, 600.0);
    OutsideSurfaceBound(Groupby(g)[0], 1200.0);
  }

  lemma OutsideSurfaceBound(r: Row, s: real)
    requires r.surface == Some(s) && s >= 1001.0
    ensures !Within(Cell(r, Surface), 9, 1001)
  {
  }

  /** Three loaded rows: two lots of transaction "2021-1" within the bounds,
      and one row of another transaction priced 2000000. The saved table has
      one row, the one of "2021-1"; the out-of-bounds row leaves no trace. */
  lemma EndToEnd(loaded: seq<Row>, out: seq<Row>)
    requires |loaded| == 3
    requires loaded[0].idMutation == loaded[1].idMutation == Some("2021-1")
    requires loaded[2].idMutation == Some("2021-2")
    requires Admitted(loaded[0]) && Admitted(loaded[1])
    requires loaded[2].price == Some(2000000.0)
    requires Stages(loaded) == Success(out)
    ensures |out| == 1 && out[0].idMutation == Some("2021-1")
  {
    SavedTable(loaded, out);
    EndToEndAdmitted(loaded);
    assert loaded[0] in loaded;
    OnlyId(loaded, loaded[0], "2021-1");
  }

  lemma EndToEndAdmitted(loaded: seq<Row>)
    requires |loaded| == 3
    requires loaded[0].idMutation == loaded[1].idMutation == Some("2021-1")
    requires loaded[2].price == Some(2000000.0)
    ensures forall y :: y in loaded && Admitted(y) ==> y.idMutation == Some("2021-1")
  {
    forall y | y in loaded && Admitted(y) ensures y.idMutation == Some("2021-1") {
      assert y != loaded[2];
    }
  }

  /** When every admitted loaded row belongs to transaction `k`, and one does,
      `k` is the only id that reaches the aggregation. */
  lemma OnlyId(loaded: seq<Row>, y0: Row, k: string)
    requires forall y :: y in loaded && Admitted(y) ==> y.idMutation == Some(k)
    requires y0 in loaded && Admitted(y0)
    ensures Ids(Validated(loaded)) == {k}
  {
    ValidatedRows(loaded);
    AdmittedIds(loaded, Validated(loaded), y0, k);
  }

  /** The same for any rows `v` characterised as in `ValidatedRows`: `k` is
      the only id of the rows that reach the aggregation
      (`v`, characterised as in `ValidatedRows`). */
  lemma AdmittedIds(loaded: seq<Row>, v: seq<Row>, y0: Row, k: string)
    requires forall x :: x in v <==> exists y :: y in loaded && Admitted(y) && x == NormalizeRow(y)
    requires forall y :: y in loaded && Admitted(y) ==> y.idMutation == Some(k)
    requires y0 in loaded && Admitted(y0)
    ensures Ids(v) == {k}
  {
    assert NormalizeRow(y0) in v;
    forall x | x in v ensures x.idMutation == Some(k) {
      var y :| y in loaded && Admitted(y) && x == NormalizeRow(y);
    }
  }
}
