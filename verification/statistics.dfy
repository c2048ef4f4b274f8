/** The statistics service (`StatisticsService`): resolve at most one filter from
    the query parameters, normalise its value, select the matching announcements
    and compute count, mean and the 10th/90th percentiles of their expenses. */
module Statistics {
  import opened Wrappers
  import opened PyStr
  import opened Announcement
  import opened Numeric
  import Seqs

  /** The query parameters, one value per name (`params.get(name)`). */
  type Params = map<string, string>

  function Get(params: Params, name: string): Option<string> {
    if name in params then Some(params[name]) else None
  }

  /** Python truthiness of an optional string: present and non-empty. */
  predicate Truthy(o: Option<string>) {
    o.Some? && o.value != ""
  }

  /** The one filter applied, carrying the raw parameter value. */
  datatype Filter = NoFilter | ByPostalCode(postalCode: string) | ByCity(city: string) | ByDepartment(department: string)

  /** `_clean_queryset`'s `if params` and `_filter_queryset`'s walrus chain: the first
      truthy of postal_code, city, department wins; everything else is ignored. */
  function ResolveFilter(params: Params): (f: Filter)
    ensures f.ByPostalCode? <==> Truthy(Get(params, "postal_code"))
    ensures f.ByCity? <==> !Truthy(Get(params, "postal_code")) && Truthy(Get(params, "city"))
    ensures f.ByDepartment? <==>
      !Truthy(Get(params, "postal_code")) && !Truthy(Get(params, "city")) && Truthy(Get(params, "department"))
    ensures f.ByPostalCode? ==> Get(params, "postal_code") == Some(f.postalCode)
    ensures f.ByCity? ==> Get(params, "city") == Some(f.city)
    ensures f.ByDepartment? ==> Get(params, "department") == Some(f.department)
  {
    if |params| == 0 then NoFilter
    else if Truthy(Get(params, "postal_code")) then ByPostalCode(params["postal_code"])
    else if Truthy(Get(params, "city")) then ByCity(params["city"])
    else if Truthy(Get(params, "department")) then ByDepartment(params["department"])
    else NoFilter
  }

  /** Lower-precedence parameters are ignored: changing them does not change the filter. */
  lemma PrecedenceIgnoresLowerParams(params: Params, other: Params)
    requires Get(params, "postal_code") == Get(other, "postal_code")
    requires Truthy(Get(params, "postal_code")) ||
      (Get(params, "city") == Get(other, "city") && Truthy(Get(params, "city")))
    ensures ResolveFilter(params) == ResolveFilter(other)
  {
  }

  /** `queryset.filter(...)` for the resolved filter, on one announcement. */
  predicate Matches(f: Filter, rec: Record) {
    match f
    case NoFilter => true
    case ByPostalCode(code) => rec.postalCode == ZFill(code, 5)
    case ByCity(name) => EqualsIgnoreCase(rec.city, name)
    case ByDepartment(code) => rec.department == ZFill(code, 2)
  }

  function Matcher(f: Filter): Record -> bool {
    (rec: Record) => Matches(f, rec)
  }

  /** `_set_filter_criteria(field, value)`. */
  function FilterCriteria(field: string, value: string): (c: string)
    ensures field != "" ==> c == "Filtered by " + field + ": " + value
    ensures field == "" <==> c == "No filter applied"
  {
    if field != "" then
      var c := "Filtered by " + field + ": " + value;
      assert c[0] == 'F';
      c
    else "No filter applied"
  }

  /** The criterion `_filter_queryset` assigns, or `None` when it never assigns one. */
  function Criterion(f: Filter): (c: Option<string>)
    ensures c.None? <==> f.NoFilter?
    ensures c.Some? ==> c.value != "No filter applied"
    ensures f.ByPostalCode? ==> c == Some("Filtered by POSTAL_CODE: " + ZFill(f.postalCode, 5))
    ensures f.ByCity? ==> c == Some("Filtered by CITY: " + Capitalize(f.city))
    ensures f.ByDepartment? ==> c == Some("Filtered by DEPARTMENT: " + ZFill(f.department, 2))
  {
    match f
    case NoFilter => None
    case ByPostalCode(code) =>
      assert "Filtered by " + "POSTAL_CODE" + ": " == "Filtered by POSTAL_CODE: ";
      Some(FilterCriteria("POSTAL_CODE", ZFill(code, 5)))
    case ByCity(name) =>
      assert "Filtered by " + "CITY" + ": " == "Filtered by CITY: ";
      Some(FilterCriteria("CITY", Capitalize(name)))
    case ByDepartment(code) =>
      assert "Filtered by " + "DEPARTMENT" + ": " == "Filtered by DEPARTMENT: ";
      Some(FilterCriteria("DEPARTMENT", ZFill(code, 2)))
  }

  /** `_clean_queryset`: the matching announcements, in store order. The null-expenses
      exclusion keeps everything, since a stored announcement always has expenses. */
  function CleanQueryset(records: seq<Record>, params: Params): (r: seq<Record>)
    ensures Seqs.IsSubsequence(r, records)
    ensures forall rec :: rec in r <==> rec in records && Matches(ResolveFilter(params), rec)
  {
    var f := ResolveFilter(params);
    Seqs.FilterIsSubsequence(Matcher(f), records);
    forall rec ensures rec in Seqs.Filter(Matcher(f), records) <==> rec in records && Matches(f, rec) {
      Seqs.FilterMembership(Matcher(f), records, rec);
    }
    Seqs.Filter(Matcher(f), records)
  }

  /** Every matching announcement is selected as often as it occurs, and no other one. */
  lemma CleanQuerysetMultiplicity(records: seq<Record>, params: Params, rec: Record)
    ensures multiset(CleanQueryset(records, params))[rec] ==
      if Matches(ResolveFilter(params), rec) then multiset(records)[rec] else 0
  {
    Seqs.FilterMultiplicity(Matcher(ResolveFilter(params)), records, rec);
  }

  /** The expenses of the records, in currency units. */
  function Expenses(records: seq<Record>): (v: seq<real>)
    ensures |v| == |records|
    ensures forall i :: 0 <= i < |records| ==> v[i] == records[i].expenses as real / 100.0
  {
    Seqs.Map((rec: Record) => rec.expenses as real / 100.0, records)
  }

  /** `_calc_percentiles`: both absent for no values, else the 10th and 90th percentiles. */
  function CalcPercentiles(values: seq<real>): (r: (Option<real>, Option<real>))
    ensures r.0.None? <==> values == [] 
    ensures r.1.None? <==> values == []
    ensures values != [] ==> Sort(values)[0] <= r.0.value <= r.1.value <= Sort(values)[|values| - 1]
    ensures values != [] ==> r.0.value == Percentile(values, 10.0) && r.1.value == Percentile(values, 90.0)
    ensures |values| == 1 ==> r.0 == Some(values[0]) && r.1 == Some(values[0])
  {
    if values == [] then (None, None)
    else
      InterpolateMonotone(Sort(values), 10.0, 90.0);
      (Some(Percentile(values, 10.0)), Some(Percentile(values, 90.0)))
  }

  /** The statistics returned by `get_stats`. */
  datatype Stats = Stats(
    filterCriteria: string,
    nbAnnouncements: nat,
    averageExpenses: Option<real>,
    percentile10: Option<real>,
    percentile90: Option<real>)

  /** `get_stats` reads `_filter_criteria`, which only exists when a filter was applied. */
  datatype StatsError = MissingFilterCriteria

  /** The statistics over given announcements, reported under `criteria`. */
  function Compute(criteria: string, selected: seq<Record>): (s: Stats)
    ensures s.filterCriteria == criteria
    ensures s.nbAnnouncements == |selected|
    ensures s.averageExpenses.None? <==> selected == []
    ensures s.percentile10.None? <==> selected == []
    ensures s.averageExpenses == Mean(Expenses(selected))
    ensures s.percentile10 == CalcPercentiles(Expenses(selected)).0
    ensures s.percentile90 == CalcPercentiles(Expenses(selected)).1
    ensures selected != [] ==> SummaryBounded(Expenses(selected), s)
  {
    var v := Expenses(selected);
    var pct := CalcPercentiles(v);
    var s := Stats(criteria, |selected|, Mean(v), pct.0, pct.1);
    SummaryBoundedIntro(v, s);
    s
  }

  /** Mean and both percentiles lie between the smallest and largest value, in order. */
  predicate SummaryBounded(v: seq<real>, s: Stats)
    requires v != []
  {
    var lo, hi := Sort(v)[0], Sort(v)[|v| - 1];
    && s.averageExpenses.Some? && lo <= s.averageExpenses.value <= hi
    && s.percentile10.Some? && s.percentile90.Some?
    && lo <= s.percentile10.value <= s.percentile90.value <= hi
  }

  lemma SummaryBoundedIntro(v: seq<real>, s: Stats)
    requires s.averageExpenses == Mean(v)
    requires s.percentile10 == CalcPercentiles(v).0 && s.percentile90 == CalcPercentiles(v).1
    ensures v != [] ==> SummaryBounded(v, s)
  {
    if v != [] {
      MeanBetweenExtremes(v);
    }
  }

  /** `StatisticsService(records, params).get_stats()`, as written. */
  function GetStats(records: seq<Record>, params: Params): (r: Result<Stats, StatsError>)
    ensures r.Failure? <==> ResolveFilter(params).NoFilter?
    ensures r.Success? ==> Some(r.value.filterCriteria) == Criterion(ResolveFilter(params))
    ensures r.Success? ==> r.value.nbAnnouncements == |CleanQueryset(records, params)|
    ensures r.Success? ==> r.value == Compute(r.value.filterCriteria, CleanQueryset(records, params))
  {
    match Criterion(ResolveFilter(params))
    case None => Failure(MissingFilterCriteria)
    case Some(c) => Success(Compute(c, CleanQueryset(records, params)))
  }

  /** With no filter applied, `get_stats` as written fails: the empty query and a query
      whose filter parameters are all absent or empty both reach the missing attribute. */
  lemma GetStatsFailsWithoutFilter(records: seq<Record>)
    ensures GetStats(records, map[]) == Failure(MissingFilterCriteria)
    ensures GetStats(records, map["postal_code" := ""]) == Failure(MissingFilterCriteria)
  {
  }

  /** `get_stats` with the "No filter applied" criterion `_set_filter_criteria` provides
      for a call without a field, recorded when no filter is applied. */
  function GetStatsCorrected(records: seq<Record>, params: Params): (s: Stats)
    ensures ResolveFilter(params).NoFilter? ==> s.filterCriteria == "No filter applied" && s.nbAnnouncements == |records|
    ensures ResolveFilter(params).NoFilter? ==> s == Compute("No filter applied", records)
    ensures !ResolveFilter(params).NoFilter? ==> GetStats(records, params) == Success(s)
  {
    var f := ResolveFilter(params);
    var criteria := match Criterion(f) case Some(c) => c case None => FilterCriteria("", "");
    var selected := CleanQueryset(records, params);
    if f.NoFilter? then
      Seqs.FilterAllKept(Matcher(f), records);
      Compute(criteria, selected)
    else Compute(criteria, selected)
  }

  /** The corrected service never fails, reports every filter by its own criterion, and
      reports "No filter applied" exactly when no filter parameter is truthy. */
  lemma GetStatsCorrectedTotal(records: seq<Record>, params: Params)
    ensures var s := GetStatsCorrected(records, params);
      && (s.filterCriteria == "No filter applied" <==> ResolveFilter(params).NoFilter?)
      && s.nbAnnouncements == |CleanQueryset(records, params)|
  {
  }

  /** A department given without its leading zero selects the stored two-digit code,
      and is reported in that normalised form. */
  lemma DepartmentIsZeroPadded(rec: Record)
    requires rec.department == "06"
    ensures ResolveFilter(map["department" := "6"]) == ByDepartment("6")
    ensures Matches(ResolveFilter(map["department" := "6"]), rec)
    ensures Criterion(ByDepartment("6")) == Some("Filtered by DEPARTMENT: 06")
  {
    var params := map["department" := "6"];
    assert Get(params, "postal_code") == None;
    assert Get(params, "city") == None;
    assert ZFill("6", 2) == "06";
    assert "Filtered by DEPARTMENT: " + "06" == "Filtered by DEPARTMENT: 06";
  }

  /** A city filter ignores case: any spelling of the stored name selects it. */
  lemma CityMatchIgnoresCase(rec: Record, name: string)
    requires EqualsIgnoreCase(rec.city, name)
    ensures Matches(ByCity(name), rec)
    ensures Matches(ByCity(Capitalize(name)), rec)
  {
    CapitalizeIgnoresCase(name);
  }
}
