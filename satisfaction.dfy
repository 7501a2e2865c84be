/** The satisfaction levels tab: the satisfied and dissatisfied rates, the
    income options and their labels mapped back to bracket codes, the
    two-way filter on satisfaction level and income bracket, the heatmap's
    column order, the weight column and the district map's colour and popup
    bands on the -2..+2 weight scale. */
module SatisfactionLevels {
  import opened Text
  import opened Frame
  import opened Normalize
  import opened Loading
  import opened Pipeline
  import opened Scales
  import opened Overview

  // ---------------------------------------------------------------------
  // Satisfied and dissatisfied rates

  /** The row has a satisfaction label (`value_counts` skips NaN). */
  predicate Answered(r: Row)
  {
    Get(r, "satisfaction_level").Str?
  }

  function LevelIn(levels: set<string>): Row -> bool
  {
    r => Get(r, "satisfaction_level").Str? && Get(r, "satisfaction_level").s in levels
  }

  function LevelIs(level: string): Row -> bool
  {
    r => Get(r, "satisfaction_level") == Str(level)
  }

  lemma LevelCountsBounded(rows: seq<Row>, levels: set<string>)
    ensures CountWhere(rows, LevelIn(levels)) <= CountWhere(rows, Answered)
  {
    CountMono(rows, LevelIn(levels), Answered);
  }

  /** The pie chart's rate: the count of labels in `levels` over the count
      of labelled rows, times 100; with no labelled row `0 / 0` is NaN. */
  function LevelShare(rows: seq<Row>, levels: set<string>): (p: Option<real>)
    ensures p.None? <==> CountWhere(rows, Answered) == 0
    ensures p.Some? ==> 0.0 <= p.value <= 100.0
  {
    var n := CountWhere(rows, Answered);
    if n == 0 then None
    else
      LevelCountsBounded(rows, levels);
      Some(Percent(CountWhere(rows, LevelIn(levels)), n))
  }

  /** The header metric: `value_counts(normalize=True) * 100` summed over
      two labels, each absent label counting 0. */
  function LevelRate(rows: seq<Row>, a: string, b: string): (p: real)
    ensures CountWhere(rows, Answered) == 0 ==> p == 0.0
    ensures p >= 0.0
  {
    var n := CountWhere(rows, Answered);
    if n == 0 then 0.0
    else
      CountMono(rows, LevelIs(a), Answered);
      CountMono(rows, LevelIs(b), Answered);
      Percent(CountWhere(rows, LevelIs(a)), n) + Percent(CountWhere(rows, LevelIs(b)), n)
  }

  /** The two computations of a rate agree: two per-label percentages add
      up to the percentage of the pair. */
  lemma RatesAgree(rows: seq<Row>, a: string, b: string)
    requires a != b && CountWhere(rows, Answered) > 0
    ensures LevelRate(rows, a, b) == LevelShare(rows, {a, b}).value
  {
    var n := CountWhere(rows, Answered);
    CountUnion(rows, LevelIs(a), LevelIs(b), LevelIn({a, b}));
    LevelCountsBounded(rows, {a, b});
    PercentAdd(CountWhere(rows, LevelIs(a)), CountWhere(rows, LevelIs(b)), n);
  }

  const SatisfiedLevels: set<string> := {"Very Satisfied", "Satisfied"}
  const DissatisfiedLevels: set<string> := {"Dissatisfied", "Very Dissatisfied"}

  /** Satisfied and dissatisfied rows are disjoint, so the two rates add up
      to at most 100. */
  lemma RatesAtMostWhole(rows: seq<Row>)
    requires CountWhere(rows, Answered) > 0
    ensures LevelShare(rows, SatisfiedLevels).value + LevelShare(rows, DissatisfiedLevels).value <= 100.0
  {
    var n := CountWhere(rows, Answered);
    var both := LevelIn(SatisfiedLevels + DissatisfiedLevels);
    CountUnion(rows, LevelIn(SatisfiedLevels), LevelIn(DissatisfiedLevels), both);
    CountMono(rows, both, Answered);
    PercentSum(CountWhere(rows, LevelIn(SatisfiedLevels)), CountWhere(rows, LevelIn(DissatisfiedLevels)), n);
  }

  // ---------------------------------------------------------------------
  // Ordered selections of names

  /** `ordered_cols`: the five labels from best to worst, kept when the
      pivot has a column for them. */
  function OrderedCols(pivotColumns: set<string>): (cols: seq<string>)
    ensures SubsequenceOf(cols, SatisfactionLabels)
    ensures forall c :: c in cols <==> c in SatisfactionLabels && c in pivotColumns
  {
    Where(SatisfactionLabels, c => c in pivotColumns)
  }

  // ---------------------------------------------------------------------
  // Income brackets and their labels

  const IncomeLabels: map<string, string> :=
    map["sem-rendimento" := "No Income", "<7001" := "Up to €7,000",
        "7001-12000" := "€7,001-€12,000", "12001-20000" := "€12,001-€20,000",
        "20001-35000" := "€20,001-€35,000", "35001-50000" := "€35,001-€50,000",
        "50001-80000" := "€50,001-€80,000", ">80001" := "Over €80,000"]

  /** Every bracket has a label, no two brackets share one, and nothing
      else is labelled. */
  lemma IncomeLabelsInjective()
    ensures forall c :: c in IncomeCodes <==> c in IncomeLabels
    ensures forall a, b :: a in IncomeLabels && b in IncomeLabels && IncomeLabels[a] == IncomeLabels[b] ==> a == b
  {
    assert IncomeLabels.Keys == set c | c in IncomeCodes;
  }

  /** The labels of some brackets, in the given order. */
  function LabelsOf(codes: seq<string>): (labels: seq<string>)
    requires forall c :: c in codes ==> c in IncomeLabels
    ensures |labels| == |codes|
    ensures forall i :: 0 <= i < |codes| ==> labels[i] == IncomeLabels[codes[i]]
  {
    seq(|codes|, i requires 0 <= i < |codes| => IncomeLabels[codes[i]])
  }

  /** The income multiselect's options: the label of each bracket present
      among the raw income values, in bracket order. */
  function IncomeOptions(present: set<string>): (opts: seq<string>)
    ensures forall l :: l in opts <==> exists c :: c in IncomeCodes && c in present && l == IncomeLabels[c]
  {
    IncomeLabelsInjective();
    var codes := Where(IncomeCodes, c => c in present);
    var opts := LabelsOf(codes);
    assert forall c :: c in IncomeCodes && c in present ==> IncomeLabels[c] in opts by {
      forall c | c in IncomeCodes && c in present
        ensures IncomeLabels[c] in opts
      {
        var i :| 0 <= i < |codes| && codes[i] == c;
        assert opts[i] == IncomeLabels[c];
      }
    }
    opts
  }

  /** The selected labels mapped back: the brackets, in bracket order,
      whose label was selected. */
  function SelectedBrackets(selected: seq<string>): (codes: seq<string>)
    ensures SubsequenceOf(codes, IncomeCodes)
    ensures forall c :: c in codes <==> c in IncomeCodes && c in IncomeLabels && IncomeLabels[c] in selected
  {
    Where(IncomeCodes, c => c in IncomeLabels && IncomeLabels[c] in selected)
  }

  /** Mapping the present brackets to their labels and back gives exactly
      the present brackets, in bracket order. */
  lemma IncomeRoundTrip(present: set<string>)
    ensures SelectedBrackets(IncomeOptions(present)) == Where(IncomeCodes, c => c in present)
  {
    IncomeLabelsInjective();
    var opts := IncomeOptions(present);
    WhereExt(IncomeCodes, c => c in IncomeLabels && IncomeLabels[c] in opts, c => c in present);
  }

  // ---------------------------------------------------------------------
  // Two-way filter

  function SatisfactionIn(levels: seq<string>): Row -> bool
  {
    r => Get(r, "satisfaction_level").Str? && Get(r, "satisfaction_level").s in levels
  }

  function IncomeIn(codes: seq<string>): Row -> bool
  {
    r => Get(r, "rendimento-anual").Str? && Get(r, "rendimento-anual").s in codes
  }

  /** The filter of lines 143-151: each non-empty selection is a test, and
      with both empty the table is kept whole. */
  function TwoWayFilter(rows: seq<Row>, levels: seq<string>, codes: seq<string>): (r: seq<Row>)
    ensures levels == [] && codes == [] ==> r == rows
    ensures forall x :: x in r <==>
              (x in rows && (levels == [] || SatisfactionIn(levels)(x)) && (codes == [] || IncomeIn(codes)(x)))
    ensures SubsequenceOf(r, rows)
  {
    if levels != [] && codes != [] then
      Select(rows, x => SatisfactionIn(levels)(x) && IncomeIn(codes)(x))
    else if levels != [] then Select(rows, SatisfactionIn(levels))
    else if codes != [] then Select(rows, IncomeIn(codes))
    else
      SubsequenceRefl(rows);
      rows
  }

  /** The four branches are one selection with the test of each empty
      selection dropped, and the order of the two tests does not matter. */
  lemma TwoWayIsOneSelection(rows: seq<Row>, levels: seq<string>, codes: seq<string>)
    ensures TwoWayFilter(rows, levels, codes) ==
            Select(rows, x => (levels == [] || SatisfactionIn(levels)(x)) && (codes == [] || IncomeIn(codes)(x)))
    ensures levels != [] && codes != [] ==>
            TwoWayFilter(rows, levels, codes) == Select(Select(rows, IncomeIn(codes)), SatisfactionIn(levels))
  {
    var mask := x => (levels == [] || SatisfactionIn(levels)(x)) && (codes == [] || IncomeIn(codes)(x));
    if levels != [] && codes != [] {
      SelectExt(rows, x => SatisfactionIn(levels)(x) && IncomeIn(codes)(x), mask);
      SelectSelect(rows, IncomeIn(codes), SatisfactionIn(levels), x => SatisfactionIn(levels)(x) && IncomeIn(codes)(x));
    } else if levels != [] {
      SelectExt(rows, SatisfactionIn(levels), mask);
    } else if codes != [] {
      SelectExt(rows, IncomeIn(codes), mask);
    } else {
      SelectAll(rows, mask);
    }
  }

  // ---------------------------------------------------------------------
  // Weight column and map bands

  /** `filtered_df["satisfaction_numeric"] = filtered_df["satisfaction_level"].map(satisfaction_weights)`. */
  method AddWeightColumn(df: DataFrame)
    modifies df
    ensures df.columns == AddColumn(old(df.columns), "satisfaction_numeric")
    ensures |df.rows| == |old(df.rows)|
    ensures forall i :: 0 <= i < |df.rows| ==>
              df.rows[i] == old(df.rows[i])["satisfaction_numeric" := ScoreCell(Get(old(df.rows[i]), "satisfaction_level"), SatisfactionWeights)]
  {
    df.Assign(Step("satisfaction_level", "satisfaction_numeric", c => ScoreCell(c, SatisfactionWeights)));
  }

  /** `style_function`'s band for a known mean weight: strict upper cuts at
      -1.5, -0.5, 0.5 and 1.5. */
  function WeightStyleBand(score: real): (b: Band)
    ensures b.Rank() == 0 <==> score < -1.5
    ensures b.Rank() == 4 <==> 1.5 <= score
  {
    if score < -1.5 then VeryDissatisfied
    else if score < -0.5 then Dissatisfied
    else if score < 0.5 then Neutral
    else if score < 1.5 then Satisfied
    else VerySatisfied
  }

  /** `create_popup_html`'s band: inclusive lower cuts at 1.5, 0.5, -0.5
      and -1.5, checked from the top down; a NaN mean falls to the lowest. */
  function WeightPopupBand(score: Option<real>): (b: Band)
    ensures score.None? ==> b == VeryDissatisfied
    ensures score.Some? && b != VeryDissatisfied ==> b.Rank() as real - 2.5 <= score.value
    ensures score.Some? && b != VerySatisfied ==> score.value < b.Rank() as real - 1.5
  {
    match score
    case None => VeryDissatisfied
    case Some(x) =>
      if x >= 1.5 then VerySatisfied
      else if x >= 0.5 then Satisfied
      else if x >= -0.5 then Neutral
      else if x >= -1.5 then Dissatisfied
      else VeryDissatisfied
  }

  /** The popup's wording of each band. */
  function WeightPopupDescription(b: Band): (d: string)
  {
    match b
    case VerySatisfied => "Very High Satisfaction"
    case Satisfied => "High Satisfaction"
    case Neutral => "Neutral Satisfaction"
    case Dissatisfied => "Low Satisfaction"
    case VeryDissatisfied => "Very Low Satisfaction"
  }

  /** Each band has its own wording, so the popup's text tells the band. */
  lemma WeightPopupDescriptionsDiffer(a: Band, b: Band)
    ensures WeightPopupDescription(a) == WeightPopupDescription(b) ==> a == b
  {
  }

  /** The map colour and the popup split the weight line at the same cut
      points, and each band is the overview's band of the weight plus 3. */
  lemma WeightBandsAgree(score: real)
    ensures WeightStyleBand(score) == WeightPopupBand(Some(score))
    ensures WeightStyleBand(score) == StyleBand(score + 3.0)
  {
  }

  /** For one labelled answer, the band of its weight here is the band of
      its score in the overview. */
  lemma LabelBandsAgree(c: Cell)
    requires c.Str? && c.s in SatisfactionScores
    ensures WeightStyleBand(ScoreCell(c, SatisfactionWeights).x) == StyleBand(ScoreCell(c, SatisfactionScores).x)
  {
    WeightCellIsScoreLessThree(c);
    WeightBandsAgree(ScoreCell(c, SatisfactionWeights).x);
  }

  /** `style_function` as written: absent districts are grey and a NaN
      mean passes no `<` test, so it is painted as the best band. */
  function WeightStyleColor(scores: map<string, Option<real>>, feature: string): (color: string)
    ensures Lower(feature) !in scores ==> color == NoDataColor
    ensures Lower(feature) in scores && scores[Lower(feature)].Some? ==>
              color == BandColor(WeightStyleBand(scores[Lower(feature)].value))
    ensures Lower(feature) in scores && scores[Lower(feature)].None? ==> color == BandColor(VerySatisfied)
  {
    var d := Lower(feature);
    if d !in scores then NoDataColor
    else match scores[d]
      case None => BandColor(VerySatisfied)
      case Some(x) => BandColor(WeightStyleBand(x))
  }

  /** A district whose filtered rows all lack a label has a NaN mean: the
      map paints it in the best band's green, its popup says "Very Low
      Satisfaction". */
  lemma WeightNaNPaintedBest()
    ensures var scores := map["porto" := None];
      WeightStyleColor(scores, "Porto") == BandColor(VerySatisfied) &&
      WeightPopupDescription(WeightPopupBand(scores["porto"])) == "Very Low Satisfaction"
  {
    assert Lower("Porto") == "porto";
  }

  /** `style_function` with a NaN mean read as missing data: the map is
      grey exactly when there is no mean, and otherwise shows the popup's
      band. */
  function WeightStyleColorFixed(scores: map<string, Option<real>>, feature: string): (color: string)
    ensures color == NoDataColor <==> Lower(feature) !in scores || scores[Lower(feature)].None?
    ensures Lower(feature) in scores && scores[Lower(feature)].Some? ==>
              color == BandColor(WeightPopupBand(scores[Lower(feature)]))
  {
    var d := Lower(feature);
    if d !in scores || scores[d].None? then NoDataColor
    else
      WeightBandsAgree(scores[d].value);
      BandColorsDistinct(WeightStyleBand(scores[d].value), WeightStyleBand(scores[d].value));
      BandColor(WeightStyleBand(scores[d].value))
  }
}
