/** The canonical schema of a transaction table: the fifteen columns read
    from the yearly DVF file, their declared types, and the positional
    rename from source column names to canonical names. */
module Schema {
  import opened Wrappers

  /** A parsed `date_mutation`. */
  datatype Date = Date(year: int, month: int, day: int)

  /** One transaction row; `None` is a missing value (NaN, None, NaT). */
  datatype Row = Row(
    idMutation: Option<string>,
    createdAt: Option<Date>,
    typeOfSearch: Option<string>,
    price: Option<real>,
    streetNumber: Option<int>,
    houseNumber: Option<string>,
    streetName: Option<string>,
    postalCode: Option<string>,
    city: Option<string>,
    departement: Option<string>,
    typeOfBuilding: Option<string>,
    surface: Option<real>,
    nbRoom: Option<real>,
    longitude: Option<string>,
    latitude: Option<string>)

  /** The columns, in file order. */
  datatype Field =
    | IdMutation | CreatedAt | TypeOfSearch | Price | StreetNumber | HouseNumber
    | StreetName | PostalCode | City | Departement | TypeOfBuilding | Surface
    | NbRoom | Longitude | Latitude

  const Fields: seq<Field> := [IdMutation, CreatedAt, TypeOfSearch, Price, StreetNumber, HouseNumber,
    StreetName, PostalCode, City, Departement, TypeOfBuilding, Surface, NbRoom, Longitude, Latitude]

  /** Columns selected from the source file (`usecols`). */
  const SourceColumns: seq<string> := ["id_mutation", "date_mutation", "nature_mutation", "valeur_fonciere",
    "adresse_numero", "adresse_suffixe", "adresse_nom_voie", "code_postal", "nom_commune", "code_departement",
    "type_local", "surface_reelle_bati", "nombre_pieces_principales", "longitude", "latitude"]

  /** The names assigned to them, position by position. */
  const CanonicalColumns: seq<string> := ["_idMutation", "createdAt", "typeOfSearch", "price", "streetNumber",
    "houseNumber", "streetName", "postalCode", "city", "departement", "typeOfBuilding", "surface", "nbRoom",
    "longitude", "latitude"]

  /** Column dtypes after loading: `str`, `float`, `Int64` and a parsed date. */
  datatype Dtype = Str | Float | NullableInt | Datetime

  function DtypeOf(f: Field): Dtype {
    match f
    case CreatedAt => Datetime
    case Price | Surface | NbRoom => Float
    case StreetNumber => NullableInt
    case _ => Str
  }

  function ColumnName(f: Field): string {
    match f
    case IdMutation => "_idMutation"
    case CreatedAt => "createdAt"
    case TypeOfSearch => "typeOfSearch"
    case Price => "price"
    case StreetNumber => "streetNumber"
    case HouseNumber => "houseNumber"
    case StreetName => "streetName"
    case PostalCode => "postalCode"
    case City => "city"
    case Departement => "departement"
    case TypeOfBuilding => "typeOfBuilding"
    case Surface => "surface"
    case NbRoom => "nbRoom"
    case Longitude => "longitude"
    case Latitude => "latitude"
  }

  /** Column lookup `df[name]`; `None` is the missing-column case. */
  function FieldNamed(name: string): (f: Option<Field>)
    ensures f.Some? ==> ColumnName(f.value) == name
    ensures f.None? ==> name !in CanonicalColumns
  {
    if name == "_idMutation" then Some(IdMutation)
    else if name == "createdAt" then Some(CreatedAt)
    else if name == "typeOfSearch" then Some(TypeOfSearch)
    else if name == "price" then Some(Price)
    else if name == "streetNumber" then Some(StreetNumber)
    else if name == "houseNumber" then Some(HouseNumber)
    else if name == "streetName" then Some(StreetName)
    else if name == "postalCode" then Some(PostalCode)
    else if name == "city" then Some(City)
    else if name == "departement" then Some(Departement)
    else if name == "typeOfBuilding" then Some(TypeOfBuilding)
    else if name == "surface" then Some(Surface)
    else if name == "nbRoom" then Some(NbRoom)
    else if name == "longitude" then Some(Longitude)
    else if name == "latitude" then Some(Latitude)
    else None
  }

  /** The rename is one to one: as many canonical names as source columns,
      the i-th canonical name names the i-th field, and looking a canonical
      name up finds that field. */
  lemma RenameIsPositional()
    ensures |SourceColumns| == |CanonicalColumns| == |Fields|
    ensures forall i :: 0 <= i < |Fields| ==> ColumnName(Fields[i]) == CanonicalColumns[i]
    ensures forall i :: 0 <= i < |Fields| ==> FieldNamed(CanonicalColumns[i]) == Some(Fields[i])
  {
    forall i | 0 <= i < |Fields| ensures FieldNamed(CanonicalColumns[i]) == Some(Fields[i]) {
      FieldNamedColumnName(Fields[i]);
    }
  }

  lemma FieldNamedColumnName(f: Field)
    ensures FieldNamed(ColumnName(f)) == Some(f)
  {
  }

  /** The value of one cell, tagged with its runtime type. */
  datatype Value = Null | Num(x: real) | Int(n: int) | Text(s: string) | Time(d: Date)

  /** A cell value is either missing or of the column's declared type. */
  predicate Conforms(v: Value, t: Dtype) {
    match v
    case Null => true
    case Num(_) => t == Float
    case Int(_) => t == NullableInt
    case Text(_) => t == Str
    case Time(_) => t == Datetime
  }

  function TextCell(o: Option<string>): Value {
    match o
    case None => Null
    case Some(s) => Text(s)
  }

  function RealCell(o: Option<real>): Value {
    match o
    case None => Null
    case Some(x) => Num(x)
  }

  /** `df[ColumnName(f)]` at row `r`. */
  function Cell(r: Row, f: Field): (v: Value)
    ensures Conforms(v, DtypeOf(f))
  {
    match f
    case IdMutation => TextCell(r.idMutation)
    case CreatedAt => (match r.createdAt case None => Null case Some(d) => Time(d))
    case TypeOfSearch => TextCell(r.typeOfSearch)
    case Price => RealCell(r.price)
    case StreetNumber => (match r.streetNumber case None => Null case Some(n) => Int(n))
    case HouseNumber => TextCell(r.houseNumber)
    case StreetName => TextCell(r.streetName)
    case PostalCode => TextCell(r.postalCode)
    case City => TextCell(r.city)
    case Departement => TextCell(r.departement)
    case TypeOfBuilding => TextCell(r.typeOfBuilding)
    case Surface => RealCell(r.surface)
    case NbRoom => RealCell(r.nbRoom)
    case Longitude => TextCell(r.longitude)
    case Latitude => TextCell(r.latitude)
  }

  /** Conversions back from a cell value to a typed field; each inverts the
      cell view on values of its type. */
  function TextOf(v: Value): (o: Option<string>)
    ensures Conforms(v, Str) ==> TextCell(o) == v
  {
    if v.Text? then Some(v.s) else None
  }

  function RealOf(v: Value): (o: Option<real>)
    ensures Conforms(v, Float) ==> RealCell(o) == v
  {
    if v.Num? then Some(v.x) else None
  }

  function IntOf(v: Value): (o: Option<int>)
    ensures Conforms(v, NullableInt) ==> (match o case None => Null case Some(n) => Int(n)) == v
  {
    if v.Int? then Some(v.n) else None
  }

  function DateOf(v: Value): (o: Option<Date>)
    ensures Conforms(v, Datetime) ==> (match o case None => Null case Some(d) => Time(d)) == v
  {
    if v.Time? then Some(v.d) else None
  }
}
