/**
 * District backfill and the two region tables of dashboard.py: the per-district post counts
 * (fetch_regional_data with its fill_missing_gu helper) and the list of neighbourhood names
 * that the lookup table cannot resolve (fetch_unmapped_details with its is_unmapped helper).
 * The rows of the database query are an input: one (sigungu, dong) pair per post.
 */
module Regions {
  import opened Keys
  import opened Grouping
  import opened Mapping

  /** The district given to a post whose district cannot be resolved. */
  const Unrecorded := "지역 미기재"

  /** The neighbourhood label given to a post without neighbourhood text in the diagnostics list. */
  const NoRegionInfo := "(지역 정보 없음)"

  /** One row of the region query: the post's own district and neighbourhood cells. */
  datatype RegionRow = RegionRow(sigungu: Cell, dong: Cell)

  /**
   * The row's own district is usable: the cell is a non-empty string whose stripped form is
   * none of "None", "nan" and "" (`row['sigungu'] and str(row['sigungu']).strip() not in [...]`).
   */
  predicate HasDistrict(c: Cell) {
    c.Text? && c.s != "" && Strip(c.s) != "None" && Strip(c.s) != "nan" && Strip(c.s) != ""
  }

  // ---------------------------------------------------------------------------------------------
  // fill_missing_gu and the per-district table
  // ---------------------------------------------------------------------------------------------

  /**
   * fill_missing_gu: the row's own district when it is usable, taken as it is (not stripped);
   * otherwise the lookup of the normalised neighbourhood, and the sentinel when the
   * neighbourhood has no key or the key is not in the table.
   */
  function FillMissingGu(nfc: string -> string, mapping: map<string, string>, row: RegionRow): (r: string)
    ensures HasDistrict(row.sigungu) ==> r == row.sigungu.s
    ensures !HasDistrict(row.sigungu) && LookupKey(nfc, row.dong) != "" && LookupKey(nfc, row.dong) in mapping ==>
              r == mapping[LookupKey(nfc, row.dong)]
    ensures !HasDistrict(row.sigungu) && (LookupKey(nfc, row.dong) == "" || LookupKey(nfc, row.dong) !in mapping) ==>
              r == Unrecorded
  {
    if HasDistrict(row.sigungu) then row.sigungu.s
    else
      var cleanDong := LookupKey(nfc, row.dong);
      if cleanDong == "" then Unrecorded
      else if cleanDong in mapping then mapping[cleanDong]
      else Unrecorded
  }

  /** `df['final_gu'] = df.apply(fill_missing_gu, axis=1)`. */
  function FinalDistricts(nfc: string -> string, mapping: map<string, string>, rows: seq<RegionRow>): (r: seq<string>)
    ensures |r| == |rows|
    ensures forall i :: 0 <= i < |rows| ==> r[i] == FillMissingGu(nfc, mapping, rows[i])
  {
    seq(|rows|, i requires 0 <= i < |rows| => FillMissingGu(nfc, mapping, rows[i]))
  }

  /**
   * fetch_regional_data: the table of posts per final district in non-increasing count order.
   * Every final district has exactly one row, and the counts add up to the number of posts
   * the query returned, the unresolved ones under the sentinel included.
   */
  function RegionalData(nfc: string -> string, file: MapFile, rows: seq<RegionRow>): (t: seq<Group>)
    ensures IsCountTable(t, FinalDistricts(nfc, MappingOf(nfc, file), rows))
    ensures Total(t) == |rows|
    ensures NonIncreasing(t)
  {
    CountTable(FinalDistricts(nfc, MappingOf(nfc, file), rows))
  }

  // ---------------------------------------------------------------------------------------------
  // is_unmapped and the diagnostics list
  // ---------------------------------------------------------------------------------------------

  /**
   * The neighbourhood label of the diagnostics list: a missing value, and afterwards any
   * label that strips to nothing, is replaced by NoRegionInfo.
   */
  function DongLabel(c: Cell): (r: string)
    ensures (c.Null? || AllSpace(c.s)) ==> r == NoRegionInfo
    ensures c.Text? && !AllSpace(c.s) ==> r == c.s
  {
    match c
    case Null => NoRegionInfo
    case Text(s) =>
      StripEmptyIffBlank(s);
      if Strip(s) == "" then NoRegionInfo else s
  }

  /** is_unmapped: the label is the placeholder, has no key, or has a key the table lacks. */
  predicate IsUnmapped(nfc: string -> string, mapping: map<string, string>, name: string) {
    if name == NoRegionInfo then true
    else
      var cleanDong := LookupKey(nfc, Text(name));
      if cleanDong == "" then true
      else cleanDong !in mapping
  }

  /** The SQL filter of the diagnostics query: `r.sigungu IS NULL OR r.sigungu = ''`. */
  predicate SqlBlank(c: Cell) {
    c == Null || c == Text("")
  }

  /** A row the diagnostics list counts as written: the SQL filter lets it through and it is unmapped. */
  predicate ListedAsWritten(nfc: string -> string, mapping: map<string, string>, row: RegionRow) {
    SqlBlank(row.sigungu) && IsUnmapped(nfc, mapping, DongLabel(row.dong))
  }

  /** A row the diagnostics list is meant to count: fill_missing_gu rejects its district and it is unmapped. */
  predicate Listed(nfc: string -> string, mapping: map<string, string>, row: RegionRow) {
    !HasDistrict(row.sigungu) && IsUnmapped(nfc, mapping, DongLabel(row.dong))
  }

  /** The labels the diagnostics list counts, with the query's SQL filter as written. */
  function UnmappedLabelsAsWritten(nfc: string -> string, mapping: map<string, string>, rows: seq<RegionRow>): (r: seq<string>)
    ensures |r| <= |rows|
    ensures forall l :: l in r ==> IsUnmapped(nfc, mapping, l)
  {
    if rows == [] then []
    else
      var rest := UnmappedLabelsAsWritten(nfc, mapping, rows[..|rows| - 1]);
      var row := rows[|rows| - 1];
      if ListedAsWritten(nfc, mapping, row) then rest + [DongLabel(row.dong)] else rest
  }

  /**
   * The labels the diagnostics list is meant to count: every row whose own district
   * fill_missing_gu rejects, with a label is_unmapped accepts.
   */
  function UnmappedLabels(nfc: string -> string, mapping: map<string, string>, rows: seq<RegionRow>): (r: seq<string>)
    ensures |r| <= |rows|
    ensures forall l :: l in r ==> IsUnmapped(nfc, mapping, l)
  {
    if rows == [] then []
    else
      var rest := UnmappedLabels(nfc, mapping, rows[..|rows| - 1]);
      var row := rows[|rows| - 1];
      if Listed(nfc, mapping, row) then rest + [DongLabel(row.dong)] else rest
  }

  /** The positions of the rows the as-written list counts under the label l. */
  ghost function AsWrittenRowsWith(nfc: string -> string, mapping: map<string, string>, rows: seq<RegionRow>, l: string): set<int> {
    set i | 0 <= i < |rows| && ListedAsWritten(nfc, mapping, rows[i]) && DongLabel(rows[i].dong) == l
  }

  /** The positions of the rows the intended list counts under the label l. */
  ghost function IntendedRowsWith(nfc: string -> string, mapping: map<string, string>, rows: seq<RegionRow>, l: string): set<int> {
    set i | 0 <= i < |rows| && Listed(nfc, mapping, rows[i]) && DongLabel(rows[i].dong) == l
  }

  /** Adding the position just past a set of smaller positions adds one to its size. */
  lemma AddLast(a: set<int>, n: int)
    requires forall i :: i in a ==> i < n
    ensures |a + {n}| == |a| + 1
  {
    assert n !in a;
  }

  lemma AsWrittenLabelsStep(nfc: string -> string, mapping: map<string, string>, rows: seq<RegionRow>, l: string)
    requires rows != []
    ensures var n := |rows| - 1;
      multiset(UnmappedLabelsAsWritten(nfc, mapping, rows))[l] == multiset(UnmappedLabelsAsWritten(nfc, mapping, rows[..n]))[l]
        + (if ListedAsWritten(nfc, mapping, rows[n]) && DongLabel(rows[n].dong) == l then 1 else 0)
  {
  }

  lemma AsWrittenRowsStep(nfc: string -> string, mapping: map<string, string>, rows: seq<RegionRow>, l: string)
    requires rows != []
    ensures var n := |rows| - 1;
      AsWrittenRowsWith(nfc, mapping, rows, l) == AsWrittenRowsWith(nfc, mapping, rows[..n], l)
        + (if ListedAsWritten(nfc, mapping, rows[n]) && DongLabel(rows[n].dong) == l then {n} else {})
  {
    var n := |rows| - 1;
    var prefix := rows[..n];
    forall i | 0 <= i < n ensures rows[i] == prefix[i] { }
  }

  lemma IntendedLabelsStep(nfc: string -> string, mapping: map<string, string>, rows: seq<RegionRow>, l: string)
    requires rows != []
    ensures var n := |rows| - 1;
      multiset(UnmappedLabels(nfc, mapping, rows))[l] == multiset(UnmappedLabels(nfc, mapping, rows[..n]))[l]
        + (if Listed(nfc, mapping, rows[n]) && DongLabel(rows[n].dong) == l then 1 else 0)
  {
  }

  lemma IntendedRowsStep(nfc: string -> string, mapping: map<string, string>, rows: seq<RegionRow>, l: string)
    requires rows != []
    ensures var n := |rows| - 1;
      IntendedRowsWith(nfc, mapping, rows, l) == IntendedRowsWith(nfc, mapping, rows[..n], l)
        + (if Listed(nfc, mapping, rows[n]) && DongLabel(rows[n].dong) == l then {n} else {})
  {
    var n := |rows| - 1;
    var prefix := rows[..n];
    forall i | 0 <= i < n ensures rows[i] == prefix[i] { }
  }

  /**
   * The as-written list holds each label once for every row the SQL filter lets through with
   * that label unmapped, and nothing else: `df[df.apply(is_unmapped, axis=1)]` keeps them all.
   */
  lemma {:induction false} UnmappedLabelsAsWrittenComplete(nfc: string -> string, mapping: map<string, string>, rows: seq<RegionRow>, l: string)
    ensures multiset(UnmappedLabelsAsWritten(nfc, mapping, rows))[l] == |AsWrittenRowsWith(nfc, mapping, rows, l)|
  {
    if rows == [] {
      assert AsWrittenRowsWith(nfc, mapping, rows, l) == {};
    } else {
      var n := |rows| - 1;
      UnmappedLabelsAsWrittenComplete(nfc, mapping, rows[..n], l);
      AsWrittenLabelsStep(nfc, mapping, rows, l);
      AsWrittenRowsStep(nfc, mapping, rows, l);
      var before := AsWrittenRowsWith(nfc, mapping, rows[..n], l);
      if ListedAsWritten(nfc, mapping, rows[n]) && DongLabel(rows[n].dong) == l {
        AddLast(before, n);
      } else {
        assert before + {} == before;
      }
    }
  }

  /**
   * The intended list holds each label once for every row whose district fill_missing_gu
   * rejects with that label unmapped, and nothing else.
   */
  lemma {:induction false} UnmappedLabelsComplete(nfc: string -> string, mapping: map<string, string>, rows: seq<RegionRow>, l: string)
    ensures multiset(UnmappedLabels(nfc, mapping, rows))[l] == |IntendedRowsWith(nfc, mapping, rows, l)|
  {
    if rows == [] {
      assert IntendedRowsWith(nfc, mapping, rows, l) == {};
    } else {
      var n := |rows| - 1;
      UnmappedLabelsComplete(nfc, mapping, rows[..n], l);
      IntendedLabelsStep(nfc, mapping, rows, l);
      IntendedRowsStep(nfc, mapping, rows, l);
      var before := IntendedRowsWith(nfc, mapping, rows[..n], l);
      if Listed(nfc, mapping, rows[n]) && DongLabel(rows[n].dong) == l {
        AddLast(before, n);
      } else {
        assert before + {} == before;
      }
    }
  }

  /** Every row the intended list should count appears in it under its label. */
  lemma ListedRowAppears(nfc: string -> string, mapping: map<string, string>, rows: seq<RegionRow>, i: nat)
    requires i < |rows| && Listed(nfc, mapping, rows[i])
    ensures DongLabel(rows[i].dong) in UnmappedLabels(nfc, mapping, rows)
  {
    var l := DongLabel(rows[i].dong);
    UnmappedLabelsComplete(nfc, mapping, rows, l);
    assert i in IntendedRowsWith(nfc, mapping, rows, l);
  }

  /** fetch_unmapped_details as written: value_counts of the labels its SQL filter lets through. */
  function UnmappedDetailsAsWritten(nfc: string -> string, file: MapFile, rows: seq<RegionRow>): (t: seq<Group>)
    ensures IsCountTable(t, UnmappedLabelsAsWritten(nfc, MappingOf(nfc, file), rows))
    ensures Total(t) == |UnmappedLabelsAsWritten(nfc, MappingOf(nfc, file), rows)|
    ensures NonIncreasing(t)
  {
    CountTable(UnmappedLabelsAsWritten(nfc, MappingOf(nfc, file), rows))
  }

  /** fetch_unmapped_details with the blank test of fill_missing_gu in place of the SQL filter. */
  function UnmappedDetails(nfc: string -> string, file: MapFile, rows: seq<RegionRow>): (t: seq<Group>)
    ensures IsCountTable(t, UnmappedLabels(nfc, MappingOf(nfc, file), rows))
    ensures Total(t) == |UnmappedLabels(nfc, MappingOf(nfc, file), rows)|
    ensures NonIncreasing(t)
  {
    CountTable(UnmappedLabels(nfc, MappingOf(nfc, file), rows))
  }

  // ---------------------------------------------------------------------------------------------
  // How the two tables agree
  // ---------------------------------------------------------------------------------------------

  /** No district of the lookup table is the sentinel itself. */
  ghost predicate SentinelFree(mapping: map<string, string>) {
    forall k :: k in mapping ==> mapping[k] != Unrecorded
  }

  /**
   * The conditions under which the sentinel and the diagnostics agree: normalisation keeps
   * blank text blank, the lookup table neither yields the sentinel nor has a key for the
   * placeholder label, and no post carries the sentinel as its own district.
   */
  ghost predicate Coherent(nfc: string -> string, mapping: map<string, string>, rows: seq<RegionRow>) {
    && KeepsBlank(nfc)
    && SentinelFree(mapping)
    && LookupKey(nfc, Text(NoRegionInfo)) !in mapping
    && forall i :: 0 <= i < |rows| ==> NotOwnSentinel(rows[i])
  }

  /** The post does not carry the sentinel as its own district. */
  ghost predicate NotOwnSentinel(row: RegionRow) {
    HasDistrict(row.sigungu) ==> row.sigungu.s != Unrecorded
  }

  /** A missing or blank neighbourhood is always reported as unmapped, under the placeholder label. */
  lemma BlankDongIsUnmapped(nfc: string -> string, mapping: map<string, string>, row: RegionRow)
    requires KeepsBlank(nfc)
    requires row.dong.Null? || AllSpace(row.dong.s)
    ensures DongLabel(row.dong) == NoRegionInfo
    ensures IsUnmapped(nfc, mapping, DongLabel(row.dong))
    ensures !HasDistrict(row.sigungu) ==> FillMissingGu(nfc, mapping, row) == Unrecorded
  {
    LookupKeyOfBlank(nfc, row.dong);
  }

  /**
   * For a row whose own district is rejected, fill_missing_gu gives the sentinel exactly when
   * is_unmapped holds for the row's diagnostics label.
   */
  lemma SentinelIffUnmapped(nfc: string -> string, mapping: map<string, string>, row: RegionRow)
    requires KeepsBlank(nfc) && SentinelFree(mapping) && LookupKey(nfc, Text(NoRegionInfo)) !in mapping
    requires !HasDistrict(row.sigungu)
    ensures FillMissingGu(nfc, mapping, row) == Unrecorded <==> IsUnmapped(nfc, mapping, DongLabel(row.dong))
  {
    if row.dong.Null? || AllSpace(row.dong.s) {
      BlankDongIsUnmapped(nfc, mapping, row);
    } else {
      assert DongLabel(row.dong) == row.dong.s;
      assert Text(row.dong.s) == row.dong;
      var key := LookupKey(nfc, row.dong);
      if key in mapping {
        assert mapping[key] != Unrecorded;
      }
    }
  }

  /** A post is resolved to the sentinel exactly when the intended diagnostics list counts it. */
  lemma RowSentinelIffListed(nfc: string -> string, mapping: map<string, string>, row: RegionRow)
    requires KeepsBlank(nfc) && SentinelFree(mapping) && LookupKey(nfc, Text(NoRegionInfo)) !in mapping
    requires NotOwnSentinel(row)
    ensures FillMissingGu(nfc, mapping, row) == Unrecorded <==> !HasDistrict(row.sigungu) && IsUnmapped(nfc, mapping, DongLabel(row.dong))
  {
    if !HasDistrict(row.sigungu) {
      SentinelIffUnmapped(nfc, mapping, row);
    }
  }

  lemma FinalDistrictsStep(nfc: string -> string, mapping: map<string, string>, rows: seq<RegionRow>)
    requires rows != []
    ensures multiset(FinalDistricts(nfc, mapping, rows))[Unrecorded] ==
      multiset(FinalDistricts(nfc, mapping, rows[..|rows| - 1]))[Unrecorded] + (if FillMissingGu(nfc, mapping, rows[|rows| - 1]) == Unrecorded then 1 else 0)
  {
    var finals := FinalDistricts(nfc, mapping, rows[..|rows| - 1]);
    var d := FillMissingGu(nfc, mapping, rows[|rows| - 1]);
    assert FinalDistricts(nfc, mapping, rows) == finals + [d];
  }

  /** The number of rows resolved to the sentinel. */
  lemma {:induction false} UnmappedCountsSentinel(nfc: string -> string, mapping: map<string, string>, rows: seq<RegionRow>)
    requires Coherent(nfc, mapping, rows)
    ensures |UnmappedLabels(nfc, mapping, rows)| == multiset(FinalDistricts(nfc, mapping, rows))[Unrecorded]
  {
    if rows != [] {
      var prefix := rows[..|rows| - 1];
      assert forall i :: 0 <= i < |prefix| ==> prefix[i] == rows[i];
      UnmappedCountsSentinel(nfc, mapping, prefix);
      FinalDistrictsStep(nfc, mapping, rows);
      RowSentinelIffListed(nfc, mapping, rows[|rows| - 1]);
    }
  }

  /**
   * The diagnostics list accounts for exactly the posts the district table puts under the
   * sentinel (the total-versus-district reconciliation law, on the unmapped side).
   */
  lemma UnmappedDetailsMatchSentinel(nfc: string -> string, file: MapFile, rows: seq<RegionRow>)
    requires Coherent(nfc, MappingOf(nfc, file), rows)
    ensures Total(UnmappedDetails(nfc, file, rows)) == CountOf(RegionalData(nfc, file, rows), Unrecorded)
  {
    UnmappedCountsSentinel(nfc, MappingOf(nfc, file), rows);
  }

  /** The SQL filter only lets through rows whose own district fill_missing_gu rejects. */
  lemma {:induction false} AsWrittenIsPartOfIntended(nfc: string -> string, mapping: map<string, string>, rows: seq<RegionRow>)
    ensures |UnmappedLabelsAsWritten(nfc, mapping, rows)| <= |UnmappedLabels(nfc, mapping, rows)|
    ensures (forall i :: 0 <= i < |rows| && !HasDistrict(rows[i].sigungu) ==> SqlBlank(rows[i].sigungu)) ==>
              UnmappedLabelsAsWritten(nfc, mapping, rows) == UnmappedLabels(nfc, mapping, rows)
  {
    if rows != [] {
      var prefix := rows[..|rows| - 1];
      AsWrittenIsPartOfIntended(nfc, mapping, prefix);
      if forall i :: 0 <= i < |rows| && !HasDistrict(rows[i].sigungu) ==> SqlBlank(rows[i].sigungu) {
        forall i | 0 <= i < |prefix| && !HasDistrict(prefix[i].sigungu) ensures SqlBlank(prefix[i].sigungu) {
          assert prefix[i] == rows[i];
        }
      }
    }
  }

  /** A post whose own district is the text "None" and which has no neighbourhood is unresolved. */
  lemma NoneDistrictRow(nfc: string -> string, mapping: map<string, string>)
    ensures var rows := [RegionRow(Text("None"), Null)];
      && FinalDistricts(nfc, mapping, rows) == [Unrecorded]
      && UnmappedLabelsAsWritten(nfc, mapping, rows) == []
      && UnmappedLabels(nfc, mapping, rows) == [NoRegionInfo]
  {
    var rows := [RegionRow(Text("None"), Null)];
    assert Strip("None") == "None" by {
      assert !IsSpace('N') && !IsSpace('e');
    }
    assert rows[..0] == [];
  }

  /**
   * Such a post is counted under the sentinel, yet the diagnostics query as written does not
   * list it, while the intended list does.
   */
  lemma AsWrittenMissesSentinelRow(nfc: string -> string)
    ensures var rows := [RegionRow(Text("None"), Null)];
      && CountOf(RegionalData(nfc, Missing, rows), Unrecorded) == 1
      && Total(UnmappedDetailsAsWritten(nfc, Missing, rows)) == 0
      && Total(UnmappedDetails(nfc, Missing, rows)) == 1
  {
    NoneDistrictRow(nfc, map[]);
    assert multiset([Unrecorded])[Unrecorded] == 1;
  }
}
