/** The satisfaction scales the tabs share: the five English labels, the
    1..5 score table (`satisfaction_mapping` in the overview tab,
    `satisfaction_scores` in the satisfaction tab), the -2..+2 weight table,
    the five colour bands and their colours from the dashboard
    configuration. */
module Scales {
  import opened Text
  import opened Frame

  /** The labels from best to worst (the order of `ordered_cols`). */
  const SatisfactionLabels: seq<string> :=
    ["Very Satisfied", "Satisfied", "Neutral", "Dissatisfied", "Very Dissatisfied"]

  const SatisfactionScores: map<string, int> :=
    map["Very Satisfied" := 5, "Satisfied" := 4, "Neutral" := 3,
        "Dissatisfied" := 2, "Very Dissatisfied" := 1]

  const SatisfactionWeights: map<string, int> :=
    map["Very Satisfied" := 2, "Satisfied" := 1, "Neutral" := 0,
        "Dissatisfied" := -1, "Very Dissatisfied" := -2]

  /** `Series.map(table)` of a label cell: a listed label becomes its
      number, anything else (missing included) becomes missing. */
  function ScoreCell(c: Cell, table: map<string, int>): (r: Cell)
    ensures r != Missing <==> c.Str? && c.s in table
    ensures r != Missing ==> r == Number(table[c.s] as real)
  {
    if c.Str? && c.s in table then Number(table[c.s] as real) else Missing
  }

  /** The score table counts down from 5 along the labels and lists no
      other label. */
  lemma ScoresCountDown(k: nat)
    requires k < |SatisfactionLabels|
    ensures SatisfactionLabels[k] in SatisfactionScores
    ensures SatisfactionScores[SatisfactionLabels[k]] == 5 - k
  {
  }

  lemma ScoreKeys(l: string)
    ensures l in SatisfactionScores <==> l in SatisfactionLabels
  {
    assert SatisfactionScores.Keys == set x | x in SatisfactionLabels;
  }

  /** Each weight is its label's score less 3, on the same five labels. */
  lemma WeightIsScoreLessThree(l: string)
    ensures l in SatisfactionWeights <==> l in SatisfactionScores
    ensures l in SatisfactionWeights ==> SatisfactionWeights[l] == SatisfactionScores[l] - 3
  {
    assert SatisfactionWeights.Keys == SatisfactionScores.Keys;
  }

  /** Scoring a label cell with the weight table is scoring it with the
      score table and subtracting 3. */
  lemma WeightCellIsScoreLessThree(c: Cell)
    ensures ScoreCell(c, SatisfactionWeights).Missing? <==> ScoreCell(c, SatisfactionScores).Missing?
    ensures ScoreCell(c, SatisfactionWeights).Number? ==>
              ScoreCell(c, SatisfactionWeights).x == ScoreCell(c, SatisfactionScores).x - 3.0
  {
    if c.Str? {
      WeightIsScoreLessThree(c.s);
    }
  }

  // ---------------------------------------------------------------------
  // Colour bands

  /** The five colour bands of the district maps, worst first. */
  datatype Band = VeryDissatisfied | Dissatisfied | Neutral | Satisfied | VerySatisfied
  {
    function Rank(): (k: nat)
      ensures k < 5
    {
      match this
      case VeryDissatisfied => 0
      case Dissatisfied => 1
      case Neutral => 2
      case Satisfied => 3
      case VerySatisfied => 4
    }

    /** The label whose colour the band takes. */
    function Label(): (l: string)
      ensures l == SatisfactionLabels[4 - Rank()]
    {
      match this
      case VeryDissatisfied => "Very Dissatisfied"
      case Dissatisfied => "Dissatisfied"
      case Neutral => "Neutral"
      case Satisfied => "Satisfied"
      case VerySatisfied => "Very Satisfied"
    }
  }

  /** `SATISFACTION_COLORS` of the dashboard configuration. */
  const SatisfactionColors: map<string, string> :=
    map["Very Satisfied" := "#2e7d32", "Satisfied" := "#66bb6a", "Neutral" := "#ffeb3b",
        "Dissatisfied" := "#ff9800", "Very Dissatisfied" := "#f44336"]

  /** The fill of a district without data. */
  const NoDataColor: string := "#f7f7f7"

  function BandColor(b: Band): (color: string)
    ensures b.Label() in SatisfactionColors && color == SatisfactionColors[b.Label()]
  {
    SatisfactionColors[b.Label()]
  }

  /** Different bands are painted differently, and none in the no-data
      grey. */
  lemma BandColorsDistinct(a: Band, b: Band)
    ensures a != b ==> BandColor(a) != BandColor(b)
    ensures BandColor(a) != NoDataColor
  {
  }
}
