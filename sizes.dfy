/** The housing types and sizes tab: household size and its groups,
    space per person, typologies, area bins and the housing adequacy
    index built from the overcrowding and bedroom measures. */
module HousingSizes {
  import opened Text
  import opened Frame
  import opened Normalize
  import opened Loading

  // ---------------------------------------------------------------------
  // Household size, space per person and size groups

  /** `fillna(0)` of a head-count cell. */
  function CountOrZero(c: Cell): real
  {
    if c.Number? then c.x else 0.0
  }

  /** A head-count cell that is missing or not below zero. */
  predicate NoNegativeCount(c: Cell)
  {
    c.Number? ==> c.x >= 0.0
  }

  /** `household_size`: non-dependants plus dependants, a missing count
      read as none. */
  function HouseholdSize(r: Row): (s: real)
    ensures NoNegativeCount(Get(r, "num-pessoas-nao-dependentes")) && NoNegativeCount(Get(r, "num-pessoas-dependentes"))
            ==> s >= 0.0
  {
    CountOrZero(Get(r, "num-pessoas-nao-dependentes")) + CountOrZero(Get(r, "num-pessoas-dependentes"))
  }

  /** `fillna(0)`: a missing head count changes nothing when it is filled
      with 0. */
  lemma MissingCountReadAsZero(r: Row, c: string)
    requires c == "num-pessoas-nao-dependentes" || c == "num-pessoas-dependentes"
    requires Get(r, c).Missing?
    ensures HouseholdSize(r[c := Number(0.0)]) == HouseholdSize(r)
  {
  }

  /** Area divided by head count, missing unless both are present and the
      count is positive. */
  function SpacePerPerson(area: Cell, size: Cell): (c: Cell)
    ensures c.Number? <==> area.Number? && size.Number? && size.x > 0.0
    ensures c.Number? ==> c.x * size.x == area.x
    ensures !c.Number? ==> c == Missing
  {
    if area.Number? && size.Number? && size.x > 0.0 then Number(area.x / size.x) else Missing
  }

  /** The size groups in chart order. */
  const SizeOrder: seq<string> := ["1", "2", "3", "4", "5", "6+"]

  /** `household_size_grouped`: "6+" from six on, the integer part as text
      for a positive size below six, missing otherwise. */
  function SizeGroup(x: real): (g: Cell)
    ensures g.Missing? <==> x <= 0.0
    ensures !g.Missing? ==> g.Str?
    ensures x >= 1.0 ==> g.Str? && g.s in SizeOrder
  {
    if x >= 6.0 then Str("6+")
    else if x > 0.0 then
      var k := x.Floor as nat;
      SmallNatInOrder(k);
      Str(NatToString(k))
    else Missing
  }

  /** A whole number from 1 to 5 prints as one of the first five groups. */
  lemma SmallNatInOrder(k: nat)
    ensures 1 <= k <= 5 ==> NatToString(k) == SizeOrder[k - 1]
  {
  }

  /** The group column read back as a number: the categorical of
      `SizeOrder` turns any other text into missing, "6+" reads as 6 and
      the rest as integers. */
  function SizeNumeric(g: Cell): (n: Option<nat>)
    ensures n.Some? <==> g.Str? && g.s in SizeOrder
    ensures n.Some? ==> 1 <= n.value <= 6
  {
    if g.Str? && g.s in SizeOrder then
      if g.s == "6+" then Some(6)
      else
        var k :| 0 <= k < 5 && SizeOrder[k] == g.s;
        SmallNatInOrder(k + 1);
        ParseNatRoundTrip(k + 1);
        ParseNat(g.s)
    else None
  }

  /** Grouping a size and reading the group back gives the size's integer
      part capped at 6; a size below one has no group in the chart order
      and reads back as missing. */
  lemma GroupRoundTrip(x: real)
    ensures x >= 6.0 ==> SizeNumeric(SizeGroup(x)) == Some(6)
    ensures 1.0 <= x < 6.0 ==> SizeNumeric(SizeGroup(x)) == Some(x.Floor as nat)
    ensures x < 1.0 ==> SizeNumeric(SizeGroup(x)).None?
  {
    if 1.0 <= x < 6.0 {
      var k := x.Floor as nat;
      SmallNatInOrder(k);
      ParseNatRoundTrip(k);
    } else if 0.0 < x < 1.0 {
      assert x.Floor == 0;
      assert NatToString(0) == "0";
    }
  }

  /** The size group of a whole head count n >= 1 reads back as n capped
      at 6. */
  lemma WholeCountRoundTrip(n: nat)
    requires n >= 1
    ensures SizeNumeric(SizeGroup(n as real)) == Some(if n >= 6 then 6 else n)
  {
    GroupRoundTrip(n as real);
  }

  function HouseholdSizeCell(r: Row): Cell
  {
    Number(HouseholdSize(r))
  }

  function SpaceCell(r: Row): Cell
  {
    SpacePerPerson(Get(r, "area_numerical"), Get(r, "household_size"))
  }

  function GroupCell(r: Row): Cell
  {
    var c := Get(r, "household_size");
    if c.Number? then SizeGroup(c.x) else Missing
  }

  /** A row with the three household columns assigned in order. */
  function HouseholdRow(r: Row): Row
  {
    var r1 := r["household_size" := HouseholdSizeCell(r)];
    var r2 := r1["approx_space_per_person" := SpaceCell(r1)];
    r2["household_size_grouped" := GroupCell(r2)]
  }

  /** Adds `household_size`, `approx_space_per_person` and
      `household_size_grouped` in place. */
  method AddHouseholdColumns(df: DataFrame)
    modifies df
    ensures df.columns ==
      AddColumns(old(df.columns), ["household_size", "approx_space_per_person", "household_size_grouped"])
    ensures |df.rows| == |old(df.rows)|
    ensures forall i :: 0 <= i < |df.rows| ==> df.rows[i] == HouseholdRow(old(df.rows[i]))
  {
    df.AssignWith("household_size", HouseholdSizeCell);
    df.AssignWith("approx_space_per_person", SpaceCell);
    df.AssignWith("household_size_grouped", GroupCell);
    AddColumnsAppend(old(df.columns), ["household_size"], "approx_space_per_person");
    AddColumnsAppend(old(df.columns), ["household_size", "approx_space_per_person"], "household_size_grouped");
  }

  /** A row's household columns: the head count with missing counts as
      none, its area per head whenever the area is known and someone lives
      there, and the group of the head count. */
  lemma HouseholdColumnsOfRow(r: Row)
    ensures Get(HouseholdRow(r), "household_size") == Number(HouseholdSize(r))
    ensures Get(HouseholdRow(r), "household_size_grouped") == SizeGroup(HouseholdSize(r))
    ensures Get(HouseholdRow(r), "approx_space_per_person").Number? <==>
              Get(r, "area_numerical").Number? && HouseholdSize(r) > 0.0
    ensures Get(HouseholdRow(r), "approx_space_per_person").Number? ==>
              Get(HouseholdRow(r), "approx_space_per_person").x * HouseholdSize(r) == Get(r, "area_numerical").x
  {
  }

  /** A household whose head counts are both missing has size 0 and
      therefore no group. */
  lemma NoCountsNoGroup(r: Row)
    requires !Get(r, "num-pessoas-nao-dependentes").Number? && !Get(r, "num-pessoas-dependentes").Number?
    ensures Get(HouseholdRow(r), "household_size_grouped") == Missing
  {
    HouseholdColumnsOfRow(r);
  }

  // ---------------------------------------------------------------------
  // Typologies and area bins

  /** The typologies in chart order. */
  const TypologyOrder: seq<string> := ["T0", "T1", "T2", "T3", "T4+"]

  /** The bedroom counts back to their typology labels. */
  const TypologyMap: map<string, string> :=
    map["0" := "T0", "1" := "T1", "2" := "T2", "3" := "T3", "4+" := "T4+"]

  /** Relabelling by `TypologyMap` undoes the loader's bedroom mapping, in
      both directions. */
  lemma TypologyInvertsBedroomMap()
    ensures forall t :: t in BedroomMap ==> BedroomMap[t] in TypologyMap && TypologyMap[BedroomMap[t]] == t
    ensures forall b :: b in TypologyMap ==> TypologyMap[b] in BedroomMap && BedroomMap[TypologyMap[b]] == b
  {
    assert BedroomMap.Keys == {"T0", "T1", "T2", "T3", "T4+"};
    assert TypologyMap.Keys == {"0", "1", "2", "3", "4+"};
  }

  /** The bin edges of `pd.cut`; bin k is AreaEdges[k] < a <= AreaEdges[k + 1]. */
  const AreaEdges: seq<real> := [0.0, 50.0, 100.0, 150.0, 200.0, 250.0, 300.0, 350.0, 400.0, 500.0]

  const AreaLabels: seq<string> :=
    ["0-50", "51-100", "101-150", "151-200", "201-250", "251-300", "301-350", "351-400", "400+"]

  /** The right-closed bin of an area, none outside (0, 500]. */
  function AreaBin(a: real): (k: Option<nat>)
    ensures k.Some? <==> AreaEdges[0] < a <= AreaEdges[9]
    ensures k.Some? ==> k.value < 9 && AreaEdges[k.value] < a <= AreaEdges[k.value + 1]
  {
    if a <= 0.0 || a > 500.0 then None
    else if a <= 50.0 then Some(0)
    else if a <= 100.0 then Some(1)
    else if a <= 150.0 then Some(2)
    else if a <= 200.0 then Some(3)
    else if a <= 250.0 then Some(4)
    else if a <= 300.0 then Some(5)
    else if a <= 350.0 then Some(6)
    else if a <= 400.0 then Some(7)
    else Some(8)
  }

  /** `area_binned` of one area. */
  function AreaBinned(c: Cell): (r: Cell)
    ensures r != Missing <==> c.Number? && 0.0 < c.x <= 500.0
    ensures r != Missing ==> r.Str? && r.s in AreaLabels
  {
    if c.Number? then
      match AreaBin(c.x)
      case Some(k) => Str(AreaLabels[k])
      case None => Missing
    else Missing
  }

  /** The loader's reading of the "more than 400" answer lands in the
      last bin; bins grow with the area. */
  lemma AreaBinsOrdered(a: real, b: real)
    ensures AreaBinned(Number(450.0)) == Str("400+")
    ensures AreaBin(a).Some? && AreaBin(b).Some? && a <= b ==> AreaBin(a).value <= AreaBin(b).value
  {
  }

  // ---------------------------------------------------------------------
  // Overcrowding

  /** A row of `household_area_data`: known area and a size group. */
  predicate HasAreaAndGroup(r: Row)
  {
    Get(r, "area_numerical").Number? && Get(r, "household_size_grouped").Str?
  }

  /** `area_per_person` of a row of `household_area_data`. */
  function AreaPerPerson(r: Row): (v: Option<real>)
    ensures v.Some? <==> Get(r, "area_numerical").Number? && SizeNumeric(Get(r, "household_size_grouped")).Some?
    ensures v.Some? ==> v.value * SizeNumeric(Get(r, "household_size_grouped")).value as real == Get(r, "area_numerical").x
  {
    var area := Get(r, "area_numerical");
    match SizeNumeric(Get(r, "household_size_grouped"))
    case Some(n) => if area.Number? && n > 0 then Some(area.x / n as real) else None
    case None => None
  }

  predicate HasAreaPerPerson(r: Row)
  {
    AreaPerPerson(r).Some?
  }

  predicate Overcrowded(r: Row)
  {
    AreaPerPerson(r).Some? && AreaPerPerson(r).value < 15.0
  }

  predicate Spacious(r: Row)
  {
    AreaPerPerson(r).Some? && AreaPerPerson(r).value >= 15.0
  }

  function HouseholdAreaData(rows: seq<Row>): seq<Row>
  {
    Select(rows, HasAreaAndGroup)
  }

  /** The overcrowding rate: the share of households under 15 m² per head
      among those with an area per head. */
  function OvercrowdedPct(rows: seq<Row>): (p: Option<real>)
    ensures p.None? <==> CountWhere(HouseholdAreaData(rows), HasAreaPerPerson) == 0
  {
    var d := HouseholdAreaData(rows);
    var n := CountWhere(d, HasAreaPerPerson);
    CountMono(d, Overcrowded, HasAreaPerPerson);
    if n == 0 then None else Some(Percent(CountWhere(d, Overcrowded), n))
  }

  /** The area component of the index: the mean of "at least 15 m² per
      head" over all of `household_area_data`, a missing value counting
      as not adequate. */
  function AreaAdequacy(rows: seq<Row>): (p: Option<real>)
    ensures p.None? <==> HouseholdAreaData(rows) == []
  {
    var d := HouseholdAreaData(rows);
    if d == [] then None else Some(Percent(CountWhere(d, Spacious), |d|))
  }

  /** Every household with an area per head is either overcrowded or
      spacious, never both. */
  lemma OvercrowdedOrSpacious(d: seq<Row>)
    ensures CountWhere(d, HasAreaPerPerson) == CountWhere(d, Overcrowded) + CountWhere(d, Spacious)
  {
    CountUnion(d, Overcrowded, Spacious, HasAreaPerPerson);
  }

  /** The overcrowding rate and the area adequacy add up to at most 100,
      and to exactly 100 when every household in the data has an area per
      head. */
  lemma OvercrowdingComplementsAdequacy(rows: seq<Row>)
    requires OvercrowdedPct(rows).Some?
    ensures AreaAdequacy(rows).Some?
    ensures OvercrowdedPct(rows).value + AreaAdequacy(rows).value <= 100.0
    ensures CountWhere(HouseholdAreaData(rows), HasAreaPerPerson) == |HouseholdAreaData(rows)| ==>
              OvercrowdedPct(rows).value + AreaAdequacy(rows).value == 100.0
  {
    var d := HouseholdAreaData(rows);
    var n := CountWhere(d, HasAreaPerPerson);
    var o, s := CountWhere(d, Overcrowded), CountWhere(d, Spacious);
    OvercrowdedOrSpacious(d);
    PercentSum(o, s, n);
    PercentShrinks(s, n, |d|);
  }

  /** In `household_area_data` a household has an area per head exactly
      when its group is one of the chart's, that is when its size is at
      least one. */
  lemma AreaPerPersonOfGroupedRow(r: Row)
    requires HasAreaAndGroup(r)
    ensures HasAreaPerPerson(r) <==> Get(r, "household_size_grouped").s in SizeOrder
  {
  }

  // ---------------------------------------------------------------------
  // Bedrooms

  const BedroomNumeric: map<string, int> := map["0" := 0, "1" := 1, "2" := 2, "3" := 3, "4+" := 4]

  function BedroomsOf(c: Cell): Option<int>
  {
    if c.Str? && c.s in BedroomNumeric then Some(BedroomNumeric[c.s]) else None
  }

  /** Every typology the loader accepts reads as its number of bedrooms,
      "T4+" as 4. */
  lemma BedroomsOfTypology(k: nat)
    requires k < |TypologyOrder|
    ensures BedroomsOf(MapVocab(Str(TypologyOrder[k]), BedroomMap)) == Some(k)
  {
  }

  /** The `adequate_bedrooms` rule: at least n - 1 bedrooms for n > 1
      people; a single person or an unknown count is adequate. */
  function AdequateBedrooms(size: real, bedrooms: Option<int>): (ok: bool)
    ensures bedrooms.None? || size <= 1.0 ==> ok
    ensures bedrooms.Some? && size > 1.0 ==> (ok <==> size <= bedrooms.value as real + 1.0)
  {
    if bedrooms.None? then true
    else if size <= 1.0 then true
    else bedrooms.value as real >= size - 1.0
  }

  /** More bedrooms or fewer people never make a home inadequate. */
  lemma AdequacyMonotone(size: real, fewer: real, b: int, more: int)
    requires fewer <= size && b <= more
    ensures AdequateBedrooms(size, Some(b)) ==> AdequateBedrooms(fewer, Some(more))
    ensures !AdequateBedrooms(size, Some(b)) ==> size > 1.0 && b as real < size - 1.0
  {
  }

  /** A row of `bedroom_adequacy_data`: household size and bedroom count
      both present. */
  predicate HasSizeAndBedrooms(r: Row)
  {
    Get(r, "household_size").Number? && !Get(r, "bedroom_count").Missing?
  }

  predicate AdequatelyRoomed(r: Row)
  {
    HasSizeAndBedrooms(r) &&
    AdequateBedrooms(Get(r, "household_size").x, BedroomsOf(Get(r, "bedroom_count")))
  }

  /** The bedroom component of the index: the share of adequately roomed
      households among those with both values. */
  function BedroomAdequacy(rows: seq<Row>): (p: Option<real>)
    ensures p.None? <==> CountWhere(rows, HasSizeAndBedrooms) == 0
  {
    var n := CountWhere(rows, HasSizeAndBedrooms);
    CountMono(rows, AdequatelyRoomed, HasSizeAndBedrooms);
    if n == 0 then None else Some(Percent(CountWhere(rows, AdequatelyRoomed), n))
  }

  /** All households with a known bedroom count that hold at most one
      person give 100 %. */
  lemma SinglesFullyAdequate(rows: seq<Row>)
    requires CountWhere(rows, HasSizeAndBedrooms) > 0
    requires forall r :: r in rows && HasSizeAndBedrooms(r) ==> Get(r, "household_size").x <= 1.0
    ensures BedroomAdequacy(rows) == Some(100.0)
  {
    SelectExt(rows, AdequatelyRoomed, HasSizeAndBedrooms);
  }

  // ---------------------------------------------------------------------
  // The housing adequacy index

  /** The preference component, fixed by the dashboard. */
  const PreferenceMatch: real := 80.0

  function Clamp(x: real): (y: real)
    ensures 0.0 <= y <= 100.0
    ensures 0.0 <= x <= 100.0 ==> y == x
  {
    if x < 0.0 then 0.0 else if x > 100.0 then 100.0 else x
  }

  /** The weighted index, scaled and clamped to 0..100; a missing
      component (pandas NaN) makes it missing. */
  function AdequacyScore(area: Option<real>, bedrooms: Option<real>): (s: Option<real>)
    ensures s.None? <==> area.None? || bedrooms.None?
    ensures s.Some? ==> 0.0 <= s.value <= 100.0
  {
    if area.None? || bedrooms.None? then None
    else Some(Clamp((area.value * 0.4 + bedrooms.value * 0.4 + PreferenceMatch * 0.2) / 100.0 * 100.0))
  }

  /** With both components percentages, the index is 16 plus 0.4 of each,
      so it never leaves [16, 96]. */
  lemma ScoreOfPercentages(a: real, b: real)
    requires 0.0 <= a <= 100.0 && 0.0 <= b <= 100.0
    ensures AdequacyScore(Some(a), Some(b)) == Some(0.4 * a + 0.4 * b + 16.0)
    ensures 16.0 <= AdequacyScore(Some(a), Some(b)).value <= 96.0
  {
    var x := (a * 0.4 + b * 0.4 + PreferenceMatch * 0.2) / 100.0 * 100.0;
    assert x == 0.4 * a + 0.4 * b + 16.0;
  }

  /** `housing_adequacy_score` of the table. */
  function HousingAdequacyScore(rows: seq<Row>): (s: Option<real>)
    ensures s.None? <==> AreaAdequacy(rows).None? || BedroomAdequacy(rows).None?
    ensures s.Some? ==> 0.0 <= s.value <= 100.0
  {
    AdequacyScore(AreaAdequacy(rows), BedroomAdequacy(rows))
  }

  /** The index of any table is missing exactly when a component is, and
      otherwise lies in [16, 96]. */
  lemma HousingAdequacyRange(rows: seq<Row>)
    ensures HousingAdequacyScore(rows).None? <==>
              HouseholdAreaData(rows) == [] || CountWhere(rows, HasSizeAndBedrooms) == 0
    ensures HousingAdequacyScore(rows).Some? ==> 16.0 <= HousingAdequacyScore(rows).value <= 96.0
  {
    if AreaAdequacy(rows).Some? && BedroomAdequacy(rows).Some? {
      ScoreOfPercentages(AreaAdequacy(rows).value, BedroomAdequacy(rows).value);
    }
  }

  /** The wording under the index; NaN compares false and falls through to
      the last one. */
  function Interpretation(s: Option<real>): (w: string)
    ensures w == "Bom" <==> s.Some? && s.value >= 80.0
    ensures w == "Adequado" <==> s.Some? && 60.0 <= s.value < 80.0
    ensures w == "Necessita Melhoria" <==> s.None? || s.value < 60.0
  {
    if s.Some? && s.value >= 80.0 then "Bom"
    else if s.Some? && s.value >= 60.0 then "Adequado"
    else "Necessita Melhoria"
  }

  /** A higher index never gets a worse wording. */
  lemma InterpretationMonotone(a: real, b: real)
    requires a <= b
    ensures Interpretation(Some(a)) == "Bom" ==> Interpretation(Some(b)) == "Bom"
    ensures Interpretation(Some(a)) == "Adequado" ==> Interpretation(Some(b)) != "Necessita Melhoria"
  {
  }
}
