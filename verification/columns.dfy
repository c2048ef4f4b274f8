/** The fixed catalogue of CSV columns the importer reads (`CSVCol`): each
    column's header label and the pandas dtype it is parsed with. */
module Columns {
  import Seqs

  datatype Column = ReferenceNumber | AdUrls | DeptCode | ZipCode | City | CondominiumExpenses

  /** The pandas dtypes used when reading: plain text, categorical text, 32-bit float. */
  datatype DType = Str | Category | Float32

  /** The catalogue in declaration order. */
  const Catalogue: seq<Column> := [ReferenceNumber, AdUrls, DeptCode, ZipCode, City, CondominiumExpenses]

  function Label(c: Column): string {
    match c
    case ReferenceNumber => "REFERENCE_NUMBER"
    case AdUrls => "AD_URLS"
    case DeptCode => "DEPT_CODE"
    case ZipCode => "ZIP_CODE"
    case City => "CITY"
    case CondominiumExpenses => "CONDOMINIUM_EXPENSES"
  }

  function DTypeOf(c: Column): DType {
    match c
    case ReferenceNumber => Str
    case AdUrls => Str
    case DeptCode => Category
    case ZipCode => Category
    case City => Category
    case CondominiumExpenses => Float32
  }

  /** `CSVCol.labels()`: one label per column, in declaration order, no two alike. */
  function Labels(): (r: seq<string>)
    ensures |r| == |Catalogue|
    ensures forall i :: 0 <= i < |r| ==> r[i] == Label(Catalogue[i])
    ensures forall i, j :: 0 <= i < j < |r| ==> r[i] != r[j]
    ensures forall c: Column :: Label(c) in r
  {
    CatalogueComplete();
    var r := Seqs.Map(Label, Catalogue);
    forall c: Column ensures Label(c) in r {
      var i :| 0 <= i < |Catalogue| && Catalogue[i] == c;
      assert r[i] == Label(c);
    }
    r
  }

  /** `CSVCol.dtypes()`: label to dtype, keyed by exactly the labels. */
  function DTypes(): (m: map<string, DType>)
    ensures forall k :: k in m ==> k in Labels()
    ensures forall c: Column :: Label(c) in m && m[Label(c)] == DTypeOf(c)
  {
    CatalogueComplete();
    map c | c in Catalogue :: Label(c) := DTypeOf(c)
  }

  /** Every column of the enumeration is in the catalogue exactly once, and labels identify columns. */
  lemma CatalogueComplete()
    ensures forall c: Column :: c in Catalogue
    ensures forall i, j :: 0 <= i < j < |Catalogue| ==> Catalogue[i] != Catalogue[j]
    ensures forall c, d: Column :: Label(c) == Label(d) ==> c == d
  {
    forall c: Column, d: Column | Label(c) == Label(d)
      ensures c == d
    {
      assert |Label(c)| == |Label(d)|;
    }
    forall c: Column
      ensures c in Catalogue
    {
      match c
      case ReferenceNumber =>
      case AdUrls =>
      case DeptCode =>
      case ZipCode =>
      case City =>
      case CondominiumExpenses =>
    }
  }

  /** The labels in declaration order, from REFERENCE_NUMBER to CONDOMINIUM_EXPENSES. */
  lemma LabelsInOrder()
    ensures Labels() == ["REFERENCE_NUMBER", "AD_URLS", "DEPT_CODE", "ZIP_CODE", "CITY", "CONDOMINIUM_EXPENSES"]
  {
    var r := Labels();
    assert r == [r[0], r[1], r[2], r[3], r[4], r[5]];
    assert r[0] == Label(ReferenceNumber) && r[1] == Label(AdUrls) && r[2] == Label(DeptCode);
    assert r[3] == Label(ZipCode) && r[4] == Label(City) && r[5] == Label(CondominiumExpenses);
  }

  /** The expenses are read as 32-bit floats, the codes and the city as categories,
      the reference and the url as plain text. */
  lemma DTypesByLabel()
    ensures DTypes()["CONDOMINIUM_EXPENSES"] == Float32
    ensures DTypes()["DEPT_CODE"] == Category && DTypes()["ZIP_CODE"] == Category && DTypes()["CITY"] == Category
    ensures DTypes()["REFERENCE_NUMBER"] == Str && DTypes()["AD_URLS"] == Str
  {
    var m := DTypes();
    assert Label(CondominiumExpenses) in m && Label(DeptCode) in m && Label(ZipCode) in m;
    assert Label(City) in m && Label(ReferenceNumber) in m && Label(AdUrls) in m;
  }
}
