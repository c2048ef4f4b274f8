/** The persisted `Announcement` entity, its column constraints, the store of
    announcements with its two uniqueness constraints, and its text forms. */
module Announcement {

  /** One stored announcement. `expenses` is the DECIMAL(10, 2) amount in cents. */
  datatype Record = Record(
    url: string,
    reference: string,
    department: string,
    city: string,
    postalCode: string,
    expenses: int)

  const UrlMaxLength: nat := 200
  const ReferenceMaxLength: nat := 100
  const DepartmentMaxLength: nat := 3
  const CityMaxLength: nat := 100
  const PostalCodeMaxLength: nat := 5
  /** DECIMAL(10, 2): ten digits in all, two after the point, so |cents| < 10^10. */
  const ExpensesCentsBound: int := 10_000_000_000

  /** Every field fits its declared column. */
  predicate FitsColumns(r: Record) {
    && |r.url| <= UrlMaxLength
    && |r.reference| <= ReferenceMaxLength
    && |r.department| <= DepartmentMaxLength
    && |r.city| <= CityMaxLength
    && |r.postalCode| <= PostalCodeMaxLength
    && -ExpensesCentsBound < r.expenses < ExpensesCentsBound
  }

  /** The announcement table, in insertion order. */
  type Store = seq<Record>

  function References(s: Store): set<string> {
    set r | r in s :: r.reference
  }

  function Urls(s: Store): set<string> {
    set r | r in s :: r.url
  }

  /** No two stored announcements share a reference. */
  predicate UniqueReferences(s: Store) {
    forall i, j :: 0 <= i < j < |s| ==> s[i].reference != s[j].reference
  }

  /** No two stored announcements share a url. */
  predicate UniqueUrls(s: Store) {
    forall i, j :: 0 <= i < j < |s| ==> s[i].url != s[j].url
  }

  /** The table invariant: both unique constraints and every column width. */
  predicate ValidStore(s: Store) {
    && UniqueReferences(s)
    && UniqueUrls(s)
    && forall i :: 0 <= i < |s| ==> FitsColumns(s[i])
  }

  /** In a valid store the reference is a key: it identifies at most one announcement. */
  lemma ReferenceIsKey(s: Store, i: nat, j: nat)
    requires ValidStore(s)
    requires i < |s| && j < |s|
    requires s[i].reference == s[j].reference || s[i].url == s[j].url
    ensures i == j
  {
  }

  /** `__str__`: "{reference} - {city} ({postal_code})". */
  function Str(r: Record): (s: string)
    ensures |s| == |r.reference| + |r.city| + |r.postalCode| + 6
    ensures s[..|r.reference|] == r.reference
    ensures s[|r.reference|..|r.reference| + 3] == " - "
    ensures s[|r.reference| + 3..|r.reference| + 3 + |r.city|] == r.city
    ensures s[|r.reference| + 3 + |r.city|..] == " (" + r.postalCode + ")"
  {
    r.reference + " - " + r.city + " (" + r.postalCode + ")"
  }

  /** `__repr__`: "<Announcement: " + str + ">". */
  function Repr(r: Record): (s: string)
    ensures |s| == |Str(r)| + 16
    ensures s[..15] == "<Announcement: "
    ensures s[15..|s| - 1] == Str(r)
    ensures s[|s| - 1] == '>'
  {
    "<Announcement: " + Str(r) + ">"
  }

  /** The text form does not identify an announcement: two records of a valid store
      that differ in reference and city can print identically. */
  lemma StrNotInjective()
    ensures exists a: Record, b: Record ::
      ValidStore([a, b]) && a.reference != b.reference && Str(a) == Str(b)
  {
    var a := Record("u1", "a - b", "06", "c", "06000", 100);
    var b := Record("u2", "a", "06", "b - c", "06000", 100);
    assert a.reference + " - " + a.city == b.reference + " - " + b.city;
    assert Str(a) == Str(b);
    assert ValidStore([a, b]);
  }
}
