/**
 * What the dashboard page derives from the district table: the table shown under the map,
 * with the row that reconciles it with the total post count, the "most frequent region"
 * figure, and the outline colour of a district's circle on the map.
 */
module Display {
  import opened Keys
  import opened Grouping
  import opened Mapping
  import opened Regions

  /** The name of the row that makes the shown counts add up to the total. */
  const NullRowLabel := "NULL 값 존재"

  /** `region_df[region_df['sigungu'] != '지역 미기재']`: the table without its sentinel rows. */
  function WithoutSentinel(t: seq<Group>): (r: seq<Group>)
    ensures Total(r) + CountOf(t, Unrecorded) == Total(t)
  {
    if t == [] then []
    else
      var head := if t[0].name != Unrecorded then [t[0]] else [];
      var rest := WithoutSentinel(t[1..]);
      assert t == [t[0]] + t[1..];
      AppendLaws([t[0]], t[1..], Unrecorded);
      AppendLaws(head, rest, Unrecorded);
      SingletonLaws(t[0], Unrecorded);
      head + rest
  }

  /** The rows kept are exactly the non-sentinel rows. */
  lemma {:induction false} WithoutSentinelRows(t: seq<Group>, g: Group)
    ensures g in WithoutSentinel(t) <==> g in t && g.name != Unrecorded
  {
    if t != [] {
      WithoutSentinelRows(t[1..], g);
      assert t == [t[0]] + t[1..];
    }
  }

  // ---------------------------------------------------------------------------------------------
  // The reconciled table
  // ---------------------------------------------------------------------------------------------

  /**
   * The table shown under the map, as a function of the district table and the total post
   * count: nothing for an empty district table; otherwise its non-sentinel rows, followed by
   * a NullRowLabel row for the difference when they add up to less than the total.
   */
  function DisplayTable(region: seq<Group>, totalCount: nat): (shown: Option<seq<Group>>)
    ensures shown.None? <==> region == []
    ensures shown.Some? ==>
      var kept := WithoutSentinel(region);
      && (Total(kept) < totalCount ==> shown.value == kept + [Group(NullRowLabel, totalCount - Total(kept))])
      && (Total(kept) >= totalCount ==> shown.value == kept)
      && Total(shown.value) == if Total(kept) < totalCount then totalCount else Total(kept)
  {
    if region == [] then None
    else
      var kept := WithoutSentinel(region);
      if Total(kept) < totalCount then
        var nullRow := Group(NullRowLabel, totalCount - Total(kept));
        AppendLaws(kept, [nullRow], "");
        SingletonLaws(nullRow, "");
        Some(kept + [nullRow])
      else Some(kept)
  }

  /** The reconciliation step of the page: filter, sum and, when short, append the null row. */
  method ReconcileDisplay(region: seq<Group>, totalCount: nat) returns (shown: Option<seq<Group>>)
    ensures shown == DisplayTable(region, totalCount)
  {
    if region == [] {
      return None;
    }
    var displayDf := WithoutSentinel(region);
    var displayedCount := Total(displayDf);
    if displayedCount < totalCount {
      var nullCount := totalCount - displayedCount;
      displayDf := displayDf + [Group(NullRowLabel, nullCount)];
    }
    shown := Some(displayDf);
  }

  /**
   * Shown under the district table of the posts the region query returned, with a total
   * count no smaller than the number of those posts, the shown counts add up to the total,
   * and the null row stands for the posts under the sentinel plus the posts the region join
   * dropped.
   */
  lemma DisplayReconcilesTotal(nfc: string -> string, file: MapFile, rows: seq<RegionRow>, totalCount: nat)
    requires rows != []
    requires totalCount >= |rows|
    ensures var region := RegionalData(nfc, file, rows);
      var shown := DisplayTable(region, totalCount);
      var nullCount := CountOf(region, Unrecorded) + (totalCount - |rows|);
      && shown.Some?
      && Total(shown.value) == totalCount
      && (nullCount > 0 ==> shown.value == WithoutSentinel(region) + [Group(NullRowLabel, nullCount)])
      && (nullCount == 0 ==> shown.value == WithoutSentinel(region))
  {
    var region := RegionalData(nfc, file, rows);
    assert region != [] by {
      assert Total(region) == |rows|;
    }
  }

  // ---------------------------------------------------------------------------------------------
  // The "most frequent region" figure
  // ---------------------------------------------------------------------------------------------

  /**
   * The first non-sentinel row of the district table, or the name "-" with count 0 when there
   * is none (`valid_regions.iloc[0]`).
   */
  function MostFrequentRegion(t: seq<Group>): (r: Group)
    ensures WithoutSentinel(t) == [] ==> r == Group("-", 0)
    ensures WithoutSentinel(t) != [] ==> r in t && r.name != Unrecorded
  {
    var valid := WithoutSentinel(t);
    if valid == [] then Group("-", 0) else
      WithoutSentinelRows(t, valid[0]);
      valid[0]
  }

  lemma {:induction false} WithoutSentinelHead(t: seq<Group>)
    requires NonIncreasing(t) && WithoutSentinel(t) != []
    ensures forall g :: g in t && g.name != Unrecorded ==> WithoutSentinel(t)[0].count >= g.count
  {
    assert t == [t[0]] + t[1..];
    if t[0].name != Unrecorded {
      forall g | g in t && g.name != Unrecorded ensures t[0].count >= g.count {
        var i :| 0 <= i < |t| && t[i] == g;
      }
    } else {
      assert NonIncreasing(t[1..]);
      WithoutSentinelHead(t[1..]);
    }
  }

  /**
   * On a table in non-increasing count order, the figure is a district with the largest count
   * among the non-sentinel districts.
   */
  lemma MostFrequentIsLargest(t: seq<Group>)
    requires NonIncreasing(t)
    ensures forall g :: g in t && g.name != Unrecorded ==> MostFrequentRegion(t).count >= g.count
  {
    if WithoutSentinel(t) != [] {
      assert MostFrequentRegion(t) == WithoutSentinel(t)[0];
      WithoutSentinelHead(t);
    } else {
      forall g | g in t && g.name != Unrecorded ensures false {
        WithoutSentinelRows(t, g);
      }
    }
  }

  // ---------------------------------------------------------------------------------------------
  // The circle outline colour
  // ---------------------------------------------------------------------------------------------

  datatype Rgba = Rgba(red: nat, green: nat, blue: nat, alpha: nat)

  const Green := Rgba(0, 200, 0, 255)
  const Gold := Rgba(255, 215, 0, 255)
  const Red := Rgba(255, 0, 0, 255)

  /** The outline colour of a district's circle: green up to 5 posts, gold up to 15, red above. */
  function OutlineColor(count: int): (c: Rgba)
    ensures c == Green || c == Gold || c == Red
  {
    if count <= 5 then Green
    else if count <= 15 then Gold
    else Red
  }

  /** The rank of a colour from few posts to many. */
  function Severity(c: Rgba): nat {
    if c == Green then 0 else if c == Gold then 1 else 2
  }

  /** More posts never give a calmer colour, and each band is reached exactly at its threshold. */
  lemma OutlineColorMonotone(a: int, b: int)
    requires a <= b
    ensures Severity(OutlineColor(a)) <= Severity(OutlineColor(b))
    ensures OutlineColor(a) == Green <==> a <= 5
    ensures OutlineColor(a) == Red <==> a > 15
  {
  }
}
