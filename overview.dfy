/** The general overview tab: the housing shares, the 1..5 satisfaction
    score column, the district map's colour bands and popup bands, the
    high rent-burden share among renters, the summary wording, the
    thousands-separator swap and the district filter. */
module Overview {
  import opened Text
  import opened Frame
  import opened Normalize
  import opened Pipeline
  import opened Loading
  import opened Scales

  // ---------------------------------------------------------------------
  // Housing shares

  function HasHousing(situation: string): Row -> bool
  {
    r => Get(r, "housing_situation") == Str(situation)
  }

  /** `(df["housing_situation"] == situation).mean() * 100`; the mean of no
      rows is NaN. */
  function HousingShare(rows: seq<Row>, situation: string): (p: Option<real>)
    ensures p.None? <==> rows == []
    ensures p.Some? ==> 0.0 <= p.value <= 100.0
  {
    if rows == [] then None else Some(Percent(CountWhere(rows, HasHousing(situation)), |rows|))
  }

  /** Three different labels are disjoint shares: together at most all of
      the rows. */
  lemma SharesAtMostWhole(rows: seq<Row>, a: string, b: string, c: string)
    requires rows != [] && a != b && b != c && a != c
    ensures HousingShare(rows, a).value + HousingShare(rows, b).value + HousingShare(rows, c).value <= 100.0
  {
    var p, q, s := HasHousing(a), HasHousing(b), HasHousing(c);
    var pq := r => p(r) || q(r);
    CountUnion(rows, p, q, pq);
    CountDisjoint(rows, pq, s);
    var n := |rows|;
    PercentAdd(CountWhere(rows, p), CountWhere(rows, q), n);
    PercentSum(CountWhere(rows, pq), CountWhere(rows, s), n);
  }

  /** The overview's three shares: owned, renting, living with others. */
  lemma OverviewSharesAtMostWhole(rows: seq<Row>)
    requires rows != []
    ensures HousingShare(rows, "Owned").value + HousingShare(rows, "Renting").value +
            HousingShare(rows, "Living with others").value <= 100.0
  {
    SharesAtMostWhole(rows, "Owned", "Renting", "Living with others");
  }

  // ---------------------------------------------------------------------
  // The satisfaction score column

  /** `df["satisfaction_score"] = df["satisfaction_level"].map(satisfaction_mapping)`. */
  function ScoreStep(): Step
  {
    Step("satisfaction_level", "satisfaction_score", c => ScoreCell(c, SatisfactionScores))
  }

  /** Adds the score column in place. */
  method AddSatisfactionScore(df: DataFrame)
    modifies df
    ensures df.columns == AddColumn(old(df.columns), "satisfaction_score")
    ensures |df.rows| == |old(df.rows)|
    ensures forall i :: 0 <= i < |df.rows| ==>
              df.rows[i] == old(df.rows[i])["satisfaction_score" := ScoreCell(Get(old(df.rows[i]), "satisfaction_level"), SatisfactionScores)]
  {
    df.Assign(ScoreStep());
  }

  /** Through the normalised label, the answer "muito-satisfeito" scores 5
      and "muito-insatisfeito" 1; any other answer scores nothing. */
  lemma ScoreOfAnswer(t: string)
    ensures var sc := ScoreCell(MapVocab(Str(t), SatisfactionMap), SatisfactionScores);
      (sc != Missing <==> t in SatisfactionMap) &&
      (t == "muito-satisfeito" ==> sc == Number(5.0)) &&
      (t == "satisfeito" ==> sc == Number(4.0)) &&
      (t == "indiferente" ==> sc == Number(3.0)) &&
      (t == "insatisfeito" ==> sc == Number(2.0)) &&
      (t == "muito-insatisfeito" ==> sc == Number(1.0))
  {
    if t in SatisfactionMap {
      assert SatisfactionMap.Keys ==
        {"muito-satisfeito", "satisfeito", "indiferente", "insatisfeito", "muito-insatisfeito"};
    }
  }

  // ---------------------------------------------------------------------
  // Colour bands of the district map and of its popups

  /** `style_function`'s band for a known score: strict upper cuts at 1.5,
      2.5, 3.5 and 4.5. */
  function StyleBand(score: real): (b: Band)
    ensures b.Rank() == 0 <==> score < 1.5
    ensures b.Rank() == 4 <==> 4.5 <= score
  {
    if score < 1.5 then VeryDissatisfied
    else if score < 2.5 then Dissatisfied
    else if score < 3.5 then Neutral
    else if score < 4.5 then Satisfied
    else VerySatisfied
  }

  /** `create_popup_html`'s band: inclusive lower cuts at 4.5, 3.5, 2.5 and
      1.5, checked from the top down.  A NaN score fails every test and falls to
      the lowest band. */
  function PopupBand(score: Option<real>): (b: Band)
    ensures score.None? ==> b == VeryDissatisfied
    ensures score.Some? && b != VeryDissatisfied ==> b.Rank() as real + 0.5 <= score.value
    ensures score.Some? && b != VerySatisfied ==> score.value < b.Rank() as real + 1.5
  {
    match score
    case None => VeryDissatisfied
    case Some(x) =>
      if x >= 4.5 then VerySatisfied
      else if x >= 3.5 then Satisfied
      else if x >= 2.5 then Neutral
      else if x >= 1.5 then Dissatisfied
      else VeryDissatisfied
  }

  /** The popup's description of each band. */
  function PopupDescription(b: Band): (d: string)
  {
    match b
    case VerySatisfied => "Muito Alta Satisfação"
    case Satisfied => "Alta Satisfação"
    case Neutral => "Satisfação Média"
    case Dissatisfied => "Baixa Satisfação"
    case VeryDissatisfied => "Muito Baixa Satisfação"
  }

  /** Each band has its own description, so the popup's wording tells the
      band. */
  lemma PopupDescriptionsDiffer(a: Band, b: Band)
    ensures PopupDescription(a) == PopupDescription(b) ==> a == b
  {
  }

  /** Every band is a unit interval around its score: band k holds the
      scores in [k + 0.5, k + 1.5), the outer bands are open-ended. */
  lemma StyleBandInterval(score: real)
    ensures var k := StyleBand(score).Rank();
      (k > 0 ==> k as real + 0.5 <= score) && (k < 4 ==> score < k as real + 1.5)
  {
  }

  /** The map colour and the popup split the score line at the same cut
      points. */
  lemma StyleMatchesPopup(score: real)
    ensures StyleBand(score) == PopupBand(Some(score))
  {
  }

  /** `style_function` as written: the district name of the map feature is
      lower-cased and looked up; an absent district is grey, a NaN mean
      fails every `<` test and is painted as the best band. */
  function StyleColor(scores: map<string, Option<real>>, feature: string): (color: string)
    ensures Lower(feature) !in scores ==> color == NoDataColor
    ensures Lower(feature) in scores && scores[Lower(feature)].Some? ==>
              color == BandColor(StyleBand(scores[Lower(feature)].value))
    ensures Lower(feature) in scores && scores[Lower(feature)].None? ==> color == BandColor(VerySatisfied)
  {
    var d := Lower(feature);
    if d !in scores then NoDataColor
    else match scores[d]
      case None => BandColor(VerySatisfied)
      case Some(x) => BandColor(StyleBand(x))
  }

  /** A district present with a NaN mean (every one of its answers lacks a
      satisfaction label) is painted in the best band's green while its
      popup reports the lowest band. */
  lemma NaNScorePaintedBest()
    ensures var scores := map["lisboa" := None];
      StyleColor(scores, "Lisboa") == BandColor(VerySatisfied) &&
      PopupBand(scores["lisboa"]) == VeryDissatisfied
  {
    assert Lower("Lisboa") == "lisboa";
  }

  /** `style_function` with a NaN mean read as missing data: the map is
      grey exactly when there is no score to show, and otherwise agrees with
      the popup. */
  function StyleColorFixed(scores: map<string, Option<real>>, feature: string): (color: string)
    ensures color == NoDataColor <==> Lower(feature) !in scores || scores[Lower(feature)].None?
    ensures Lower(feature) in scores && scores[Lower(feature)].Some? ==>
              color == BandColor(PopupBand(scores[Lower(feature)]))
  {
    var d := Lower(feature);
    if d !in scores || scores[d].None? then NoDataColor
    else
      StyleMatchesPopup(scores[d].value);
      BandColorsDistinct(StyleBand(scores[d].value), StyleBand(scores[d].value));
      BandColor(StyleBand(scores[d].value))
  }

  // ---------------------------------------------------------------------
  // District names

  /** `district_mapping`: survey district names to map names. */
  const DistrictMapping: map<string, string> :=
    map["viana do castelo" := "viana do castelo", "braga" := "braga", "vila real" := "vila real",
        "braganca" := "braganca", "aveiro" := "aveiro", "coimbra" := "coimbra", "leiria" := "leiria",
        "lisboa" := "lisboa", "porto" := "porto", "setubal" := "setubal", "viseu" := "viseu",
        "guarda" := "guarda", "santarem" := "santarem", "beja" := "beja",
        "castelo branco" := "castelo branco", "evora" := "evora", "faro" := "faro",
        "portalegre" := "portalegre", "ilha da madeira" := "madeira", "acores" := "acores"]

  /** The mapping renames only Madeira; every other listed district keeps
      its name, and an unlisted one becomes missing. */
  lemma DistrictMappingRenamesMadeira(name: string)
    ensures name in DistrictMapping && name != "ilha da madeira" ==> DistrictMapping[name] == name
    ensures MapVocab(Str("ilha da madeira"), DistrictMapping) == Str("madeira")
    ensures name !in DistrictMapping ==> MapVocab(Str(name), DistrictMapping) == Missing
  {
  }

  // ---------------------------------------------------------------------
  // Rent burden among renters

  predicate IsRenting(r: Row)
  {
    Get(r, "housing_situation") == Str("Renting")
  }

  predicate IsHighBurden(r: Row)
  {
    Get(r, "rent_burden") == Str(HighBurden) || Get(r, "rent_burden") == Str(VeryHighBurden)
  }

  predicate IsHighBurdenRenter(r: Row)
  {
    IsRenting(r) && IsHighBurden(r)
  }

  /** `high_burden_pct`: the share of renters whose burden is high or very
      high, 0 without renters. */
  function HighBurdenPct(rows: seq<Row>): (p: real)
    ensures 0.0 <= p <= 100.0
    ensures CountWhere(rows, IsRenting) == 0 ==> p == 0.0
  {
    var renters := Select(rows, IsRenting);
    if |renters| == 0 then 0.0 else Percent(CountWhere(renters, IsHighBurden), |renters|)
  }

  /** The share is the count of high-burden renters over the count of
      renters. */
  lemma HighBurdenPctCounts(rows: seq<Row>)
    requires CountWhere(rows, IsRenting) > 0
    ensures CountWhere(rows, IsHighBurdenRenter) <= CountWhere(rows, IsRenting)
    ensures HighBurdenPct(rows) ==
            Percent(CountWhere(rows, IsHighBurdenRenter), CountWhere(rows, IsRenting))
  {
    SelectSelect(rows, IsRenting, IsHighBurden, IsHighBurdenRenter);
  }

  /** A normalised row has a high burden exactly when its raw rent share
      parses to more than 50%. */
  lemma HighBurdenMeansOverHalf(cols: seq<string>, r: Row)
    ensures var p := PercentValue(Get(r, "percentagem-renda-paga"));
      IsHighBurden(NormalizeRow(cols, r)) <==> p.Some? && p.value > 50.0
  {
    NormalizedBurden(cols, r);
  }

  // ---------------------------------------------------------------------
  // Summary wording

  /** `burden_severity`. */
  function BurdenSeverity(p: real): (w: string)
    ensures w == "alta" <==> p > 40.0
    ensures w == "moderada" <==> 20.0 < p <= 40.0
    ensures w == "baixa" <==> p <= 20.0
  {
    if p > 40.0 then "alta" else if p > 20.0 then "moderada" else "baixa"
  }

  /** `satisfaction_level`; a NaN mean fails both tests. */
  function SatisfactionWord(avg: Option<real>): (w: string)
    ensures w == "alta" <==> avg.Some? && avg.value >= 4.0
    ensures w == "moderada" <==> avg.Some? && 3.0 <= avg.value < 4.0
    ensures w == "baixa" <==> avg.None? || avg.value < 3.0
  {
    match avg
    case None => "baixa"
    case Some(x) => if x >= 4.0 then "alta" else if x >= 3.0 then "moderada" else "baixa"
  }

  function WordRank(w: string): nat
  {
    if w == "alta" then 2 else if w == "moderada" then 1 else 0
  }

  /** Both wordings grow with their number. */
  lemma WordingsMonotone(p: real, q: real)
    requires p <= q
    ensures WordRank(BurdenSeverity(p)) <= WordRank(BurdenSeverity(q))
    ensures WordRank(SatisfactionWord(Some(p))) <= WordRank(SatisfactionWord(Some(q)))
  {
  }

  // ---------------------------------------------------------------------
  // Thousands separators

  /** `.replace(",", "X").replace(".", ",").replace("X", ".")`: commas and
      points change places, every other character stays where it was, and
      an 'X' already in the string comes out as a point too. */
  function SwapSeparators(s: string): (r: string)
    ensures |r| == |s| && 'X' !in r
    ensures forall i :: 0 <= i < |s| ==>
      r[i] == (if s[i] == ',' || s[i] == 'X' then '.' else if s[i] == '.' then ',' else s[i])
  {
    var r := ReplaceChar(ReplaceChar(ReplaceChar(s, ',', 'X'), '.', ','), 'X', '.');
    assert forall i :: 0 <= i < |r| ==> r[i] != 'X';
    r
  }

  /** Swapping twice gives the string back. */
  lemma SwapSeparatorsInvolution(s: string)
    requires 'X' !in s
    ensures SwapSeparators(SwapSeparators(s)) == s
  {
    var r := SwapSeparators(SwapSeparators(s));
    assert forall i :: 0 <= i < |s| ==> r[i] == s[i];
  }

  // ---------------------------------------------------------------------
  // District filter

  /** The row's district, lower-cased, is `selected` lower-cased; a
      missing district never matches. */
  function InDistrict(selected: string): Row -> bool
  {
    r => Get(r, "distrito").Str? && Lower(Get(r, "distrito").s) == Lower(selected)
  }

  /** The KPI panel's filter: the empty selection and "All" keep every row. */
  function DistrictFilter(rows: seq<Row>, selected: string): (r: seq<Row>)
    ensures selected == "" || selected == "All" ==> r == rows
    ensures SubsequenceOf(r, rows)
  {
    if selected == "" || selected == "All" then
      SubsequenceRefl(rows);
      rows
    else Select(rows, InDistrict(selected))
  }

  /** A district choice keeps exactly the rows of that district, whatever
      the case of either name. */
  lemma DistrictFilterKeeps(rows: seq<Row>, selected: string, x: Row)
    requires selected != "" && selected != "All"
    ensures x in DistrictFilter(rows, selected) <==>
            x in rows && Get(x, "distrito").Str? && Lower(Get(x, "distrito").s) == Lower(selected)
  {
  }

  /** The offered choice `name.capitalize()` of a lower-case district
      name selects the rows whose district lower-cases to `name`. */
  lemma DistrictOptionSelects(rows: seq<Row>, name: string, x: Row)
    requires name != "" && name != "all"
    requires forall i :: 0 <= i < |name| ==> !IsUpperAscii(name[i])
    ensures x in DistrictFilter(rows, Capitalize(name)) <==>
            x in rows && Get(x, "distrito").Str? && Lower(Get(x, "distrito").s) == name
  {
    var c := Capitalize(name);
    assert Lower(c) == name;
    assert Lower("All") == "all";
  }
}
