/** The transform stage of the older pipeline: the same null filtering and
    normalisation as the current one, an allowlist of building types, fixed
    price / surface / search-type criteria, and a driver that saves its one
    mutable frame. That driver discards the tables the two filtering stages
    return, so the saved table is only null-filtered and normalised;
    `RunMain` models it as written and `RunIntended` as its filters mean. */
module TransformDvf {
  import opened Wrappers
  import opened Sequences
  import opened Schema
  import Text
  import Transform

  /** A row of the older layout: the fifteen columns the current pipeline
      also loads, plus the parcel id and the parcel surface. */
  datatype DvfRow = DvfRow(base: Row, plotId: Option<string>, surfacePlot: Option<real>)

  // ---------------------------------------------------------------- drop_na

  function MandatoryKept(): DvfRow -> bool {
    (r: DvfRow) => Transform.KeptByDropna(r.base, Transform.MandatoryRows, Transform.Any)
  }

  function OptionalKept(): DvfRow -> bool {
    (r: DvfRow) => Transform.KeptByDropna(r.base, Transform.OptionalRows, Transform.All)
  }

  /** `drop_na`: the same two `dropna` calls as the current version; the two
      extra columns are in neither subset. */
  function DropNaRows(rows: seq<DvfRow>): (out: seq<DvfRow>)
    ensures forall r :: r in out <==> r in rows && Transform.Complete(r.base)
    ensures forall r :: multiset(out)[r] == if Transform.Complete(r.base) then multiset(rows)[r] else 0
    ensures IsSubsequence(out, rows)
  {
    var mandatory := Filter(MandatoryKept(), rows);
    var out := Filter(OptionalKept(), mandatory);
    SubsequenceTransitive(out, mandatory, rows);
    FilterCounts(MandatoryKept(), rows);
    FilterCounts(OptionalKept(), mandatory);
    assert forall r :: (r in out <==> r in rows && Transform.Complete(r.base))
                       && multiset(out)[r] == (if Transform.Complete(r.base) then multiset(rows)[r] else 0) by {
      forall r ensures (r in out <==> r in rows && Transform.Complete(r.base))
                       && multiset(out)[r] == (if Transform.Complete(r.base) then multiset(rows)[r] else 0) {
        Transform.NullRules(r.base);
      }
    }
    out
  }

  // --------------------------------------------------- update_fields_values

  /** One row after `update_fields_values`: the same column rules as the
      current version, the two extra columns untouched. */
  function NormalizeRow(r: DvfRow): (n: DvfRow)
    ensures n.base == Transform.NormalizeRow(r.base)
    ensures n.plotId == r.plotId && n.surfacePlot == r.surfacePlot
  {
    r.(base := Transform.NormalizeRow(r.base))
  }

  function NormalizedRows(rows: seq<DvfRow>): (out: seq<DvfRow>)
    ensures |out| == |rows|
    ensures forall i :: 0 <= i < |rows| ==> out[i] == NormalizeRow(rows[i])
  {
    seq(|rows|, i requires 0 <= i < |rows| => NormalizeRow(rows[i]))
  }

  /** Normalisation changes only `typeOfBuilding` and `typeOfSearch`, and
      applying it twice is applying it once. */
  lemma NormalizeRowSpec(r: DvfRow)
    ensures NormalizeRow(r).(base := NormalizeRow(r).base.(typeOfBuilding := r.base.typeOfBuilding,
                                                            typeOfSearch := r.base.typeOfSearch)) == r
    ensures NormalizeRow(NormalizeRow(r)) == NormalizeRow(r)
  {
    Transform.NormalizeRowIdempotent(r.base);
  }

  // ------------------------------------------------------ drop_useless_rows

  /** `isin(["appartement", "maison"])`; False on a missing value. */
  predicate UsefulBuilding(r: DvfRow) {
    r.base.typeOfBuilding == Some("appartement") || r.base.typeOfBuilding == Some("maison")
  }

  function Useful(): DvfRow -> bool {
    (r: DvfRow) => UsefulBuilding(r)
  }

  /** `drop_useless_rows`: the rows of an allowed building type, in order. */
  function DropUselessRows(rows: seq<DvfRow>): (out: seq<DvfRow>)
    ensures forall r :: r in out <==> r in rows && UsefulBuilding(r)
    ensures forall r :: multiset(out)[r] == if UsefulBuilding(r) then multiset(rows)[r] else 0
    ensures forall r :: r in out ==> r.base.typeOfBuilding.Some?
    ensures IsSubsequence(out, rows)
  {
    FilterCounts(Useful(), rows);
    Filter(Useful(), rows)
  }

  // ------------------------------------------------------------- validation

  /** `(price > 4999) & (price < 1999999)`; False on a missing price. */
  predicate PriceValid(r: DvfRow) {
    r.base.price.Some? && 4999.0 < r.base.price.value < 1999999.0
  }

  /** `(surface > 9) & (surface < 1001)`; False on a missing surface. */
  predicate SurfaceValid(r: DvfRow) {
    r.base.surface.Some? && 9.0 < r.base.surface.value < 1001.0
  }

  /** `typeOfSearch == "achat"`; False on a missing value. */
  predicate IsPurchase(r: DvfRow) {
    r.base.typeOfSearch == Some("achat")
  }

  function PriceOk(): DvfRow -> bool {
    (r: DvfRow) => PriceValid(r)
  }

  function SurfaceOk(): DvfRow -> bool {
    (r: DvfRow) => SurfaceValid(r)
  }

  function PurchaseOk(): DvfRow -> bool {
    (r: DvfRow) => IsPurchase(r)
  }

  predicate Valid(r: DvfRow) {
    PriceValid(r) && SurfaceValid(r) && IsPurchase(r)
  }

  /** `validation`: price, then surface, then the search type. */
  function Validation(rows: seq<DvfRow>): (out: seq<DvfRow>)
    ensures forall r :: r in out <==> r in rows && Valid(r)
    ensures forall r :: multiset(out)[r] == if Valid(r) then multiset(rows)[r] else 0
    ensures IsSubsequence(out, rows)
  {
    var byPrice := Filter(PriceOk(), rows);
    var bySurface := Filter(SurfaceOk(), byPrice);
    var out := Filter(PurchaseOk(), bySurface);
    SubsequenceTransitive(bySurface, byPrice, rows);
    SubsequenceTransitive(out, bySurface, rows);
    FilterCounts(PriceOk(), rows);
    FilterCounts(SurfaceOk(), byPrice);
    FilterCounts(PurchaseOk(), bySurface);
    out
  }

  /** The three criteria of `validation` give the same table in any order. */
  lemma ValidationOrderIrrelevant(rows: seq<DvfRow>)
    ensures Validation(rows) == Filter(SurfaceOk(), Filter(PurchaseOk(), Filter(PriceOk(), rows)))
    ensures Validation(rows) == Filter(PurchaseOk(), Filter(PriceOk(), Filter(SurfaceOk(), rows)))
    ensures Validation(rows) == Filter(PriceOk(), Filter(PurchaseOk(), Filter(SurfaceOk(), rows)))
    ensures Validation(rows) == Filter(SurfaceOk(), Filter(PriceOk(), Filter(PurchaseOk(), rows)))
    ensures Validation(rows) == Filter(PriceOk(), Filter(SurfaceOk(), Filter(PurchaseOk(), rows)))
  {
    var p, s, t := PriceOk(), SurfaceOk(), PurchaseOk();
    FilterCommutes(s, t, Filter(p, rows));
    FilterCommutes(p, s, rows);
    FilterCommutes(p, t, Filter(s, rows));
    FilterCommutes(t, s, Filter(p, rows));
    FilterCommutes(p, t, rows);
    FilterCommutes(s, t, Filter(p, rows));
    FilterCommutes(p, s, Filter(t, rows));
  }

  // --------------------------------------------------------------- save_df

  /** A written CSV file: its path and the rows it holds. */
  datatype SavedFile = SavedFile(path: string, rows: seq<DvfRow>)

  predicate IsDigits(s: string) {
    forall i :: 0 <= i < |s| ==> '0' <= s[i] <= '9'
  }

  /** The number a string of decimal digits denotes. */
  function DigitsValue(s: string): nat
    requires IsDigits(s)
  {
    if s == [] then 0 else 10 * DigitsValue(s[..|s| - 1]) + (s[|s| - 1] as int - '0' as int)
  }

  /** Decimal notation of an integer, as an f-string writes it: a minus sign
      for a negative number, then digits without a leading zero that denote
      its magnitude. */
  function Decimal(n: int): (s: string)
    ensures |s| > 0
    ensures n >= 0 ==> IsDigits(s) && DigitsValue(s) == n && (|s| > 1 ==> s[0] != '0')
    ensures n < 0 ==> s[0] == '-' && IsDigits(s[1..]) && DigitsValue(s[1..]) == -n
    ensures n < 0 ==> |s| > 2 ==> s[1] != '0'
    decreases if n < 0 then 1 - n else n
  {
    if n < 0 then
      var t := Decimal(-n);
      assert ("-" + t)[1..] == t;
      "-" + t
    else if n < 10 then [(48 + n) as char]
    else
      var hi, lo := Decimal(n / 10), Decimal(n % 10);
      assert (hi + lo)[..|hi + lo| - 1] == hi;
      hi + lo
  }

  /** The file name of the 2021 run. */
  lemma SaveDfPath(rows: seq<DvfRow>)
    ensures SaveDf(rows, 2021).path == "data/dvf_2021_updated.csv"
  {
    assert Decimal(20) == Decimal(2) + Decimal(0) == "20";
    assert Decimal(202) == Decimal(20) + Decimal(2) == "202";
    assert Decimal(2021) == Decimal(202) + Decimal(1) == "2021";
  }

  /** `save_df(df, year)`: always writes, to `data/dvf_<year>_updated.csv`. */
  function SaveDf(rows: seq<DvfRow>, year: int): (file: SavedFile)
    ensures file.rows == rows
    ensures file.path == "data/dvf_" + Decimal(year) + "_updated.csv"
  {
    SavedFile("data/dvf_" + Decimal(year) + "_updated.csv", rows)
  }

  // ----------------------------------------------------------------- main

  /** The one frame `main` threads through the stages that work in place. */
  class DvfTable {
    var rows: seq<DvfRow>

    constructor (loaded: seq<DvfRow>)
      ensures rows == loaded
    {
      rows := loaded;
    }

    /** `drop_na`: two `dropna(..., inplace=True)` calls. */
    method DropNa()
      modifies this
      ensures rows == DropNaRows(old(rows))
    {
      rows := Filter(MandatoryKept(), rows);
      rows := Filter(OptionalKept(), rows);
    }

    /** `update_fields_values`: column assignments into the frame. */
    method UpdateFieldsValues()
      modifies this
      ensures rows == NormalizedRows(old(rows))
    {
      rows := NormalizedRows(rows);
    }
  }

  /** The table `main` saves, as written: only null-filtered and normalised. */
  function MainRows(loaded: seq<DvfRow>): seq<DvfRow> {
    NormalizedRows(DropNaRows(loaded))
  }

  /** The table the filtering stages of `main` are there to produce. */
  function IntendedRows(loaded: seq<DvfRow>): seq<DvfRow> {
    Validation(DropUselessRows(MainRows(loaded)))
  }

  /** `main` as written: the frames `drop_useless_rows` and `validation`
      return are not assigned, so the saved file holds the frame as the two
      in-place stages left it. */
  method RunMain(loaded: seq<DvfRow>, year: int) returns (saved: SavedFile)
    ensures saved == SaveDf(MainRows(loaded), year)
  {
    var dvf := new DvfTable(loaded);
    dvf.DropNa();
    dvf.UpdateFieldsValues();
    var useful := DropUselessRows(dvf.rows);
    var valid := Validation(dvf.rows);
    saved := SaveDf(dvf.rows, year);
  }

  /** `main` with the returned frames assigned back, as the stage comments
      describe it. */
  method RunIntended(loaded: seq<DvfRow>, year: int) returns (saved: SavedFile)
    ensures saved == SaveDf(IntendedRows(loaded), year)
  {
    var dvf := new DvfTable(loaded);
    dvf.DropNa();
    dvf.UpdateFieldsValues();
    var useful := DropUselessRows(dvf.rows);
    var valid := Validation(useful);
    saved := SaveDf(valid, year);
  }

  /** Every row the intended driver saves is an apartment or a house bought
      at a price and with a surface strictly within the bounds, and it is
      the normalised form of a complete loaded row; the rows keep their
      loaded order among the normalised complete rows. */
  lemma IntendedRowsSpec(loaded: seq<DvfRow>)
    ensures forall r :: r in IntendedRows(loaded) ==> UsefulBuilding(r) && Valid(r)
    ensures forall r :: r in IntendedRows(loaded) ==>
      exists y :: y in loaded && Transform.Complete(y.base) && r == NormalizeRow(y)
    ensures IsSubsequence(IntendedRows(loaded), MainRows(loaded))
  {
    var complete := DropNaRows(loaded);
    var main := MainRows(loaded);
    var useful := DropUselessRows(main);
    var out := Validation(useful);
    forall r | r in out ensures exists y :: y in loaded && Transform.Complete(y.base) && r == NormalizeRow(y) {
      var i :| 0 <= i < |main| && main[i] == r;
      assert complete[i] in complete;
    }
    SubsequenceTransitive(out, useful, main);
  }

  /** The saved table of `main` as written keeps rows the filters reject: a
      sale of a shop for 100 with 5 square metres is saved, and the intended
      driver saves nothing of it. */
  lemma MainKeepsRejectedRows(base: Row)
    requires base.typeOfSearch == Some("Vente") && base.price == Some(100.0)
    requires base.typeOfBuilding == Some("Local") && base.surface == Some(5.0)
    ensures MainRows([DvfRow(base, None, None)]) == [NormalizeRow(DvfRow(base, None, None))]
    ensures IntendedRows([DvfRow(base, None, None)]) == []
  {
    var r := DvfRow(base, None, None);
    var n := NormalizeRow(r);
    assert Transform.Complete(base);
    Transform.NullRules(base);
    assert DropNaRows([r]) == [r] by {
      FilterAllPass(MandatoryKept(), [r]);
      FilterAllPass(OptionalKept(), [r]);
    }
    assert MainRows([r]) == [n];
    assert Text.Lower("Local") == "local";
    assert n.base.typeOfBuilding == Some("local");
    assert !UsefulBuilding(n);
    assert DropUselessRows([n]) == [];
    assert Validation([]) == [];
  }
}
