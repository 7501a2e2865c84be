/** The housing distribution tab: the birth period read from the birth
    interval, the approximate age and the decade group, the cleaning of the
    rent and purchase strategies and the key map built from them, the
    flattened strategy lists, the numeric satisfaction of a list answer and
    the housing-situation filter. */
module Distribution {
  import opened Text
  import opened Frame
  import opened Normalize
  import opened Pipeline
  import opened Loading
  import opened Scales
  import opened Overview

  // ---------------------------------------------------------------------
  // Birth period

  /** The longest run of digits at the front of `s`. */
  function LeadingDigits(s: string): (d: string)
    ensures |d| <= |s| && d == s[..|d|] && AllDigits(d)
    ensures |d| < |s| ==> !IsDigit(s[|d|])
  {
    if s != [] && IsDigit(s[0]) then [s[0]] + LeadingDigits(s[1..]) else []
  }

  /** A digit string followed by a non-digit is read back whole. */
  lemma {:induction false} LeadingDigitsOfRun(d: string, rest: string)
    requires AllDigits(d)
    requires rest == [] || !IsDigit(rest[0])
    ensures LeadingDigits(d + rest) == d
  {
    if d == [] {
      assert d + rest == rest;
    } else {
      assert (d + rest)[1..] == d[1..] + rest;
      LeadingDigitsOfRun(d[1..], rest);
    }
  }

  /** Where the pattern `\[(\d+)` first matches: the first `[` that is
      followed by a digit. */
  function FirstBracketDigit(s: string): (k: Option<nat>)
    ensures k.Some? ==> k.value + 1 < |s| && s[k.value] == '[' && IsDigit(s[k.value + 1])
    ensures k.Some? ==> forall i :: 0 <= i < k.value ==> !(s[i] == '[' && IsDigit(s[i + 1]))
    ensures k.None? ==> forall i :: 0 <= i < |s| - 1 ==> !(s[i] == '[' && IsDigit(s[i + 1]))
  {
    if |s| < 2 then None
    else if s[0] == '[' && IsDigit(s[1]) then Some(0)
    else match FirstBracketDigit(s[1..])
      case None => None
      case Some(k) => Some(k + 1)
  }

  /** `str.extract(r"\[(\d+)")` then `pd.to_numeric`: the number written
      right after the first `[` followed by a digit. A cell that is not a
      string, or a string without such a `[`, gives missing. */
  function BirthPeriod(c: Cell): (p: Option<nat>)
    ensures p.Some? <==> c.Str? && FirstBracketDigit(c.s).Some?
    ensures p.Some? ==>
      var k := FirstBracketDigit(c.s).value;
      var d := LeadingDigits(c.s[k + 1..]);
      |d| > 0 && p.value == DigitsValue(d)
  {
    if !c.Str? then None
    else match FirstBracketDigit(c.s)
      case None => None
      case Some(k) => Some(DigitsValue(LeadingDigits(c.s[k + 1..])))
  }

  /** An interval written "[y" followed by a non-digit has birth period y. */
  lemma BirthPeriodOfInterval(y: nat, rest: string)
    requires rest == [] || !IsDigit(rest[0])
    ensures BirthPeriod(Str("[" + NatToString(y) + rest)) == Some(y)
  {
    var d := NatToString(y);
    var s := "[" + d + rest;
    assert s[1..] == d + rest;
    assert s[0] == '[' && s[1] == d[0] && IsDigit(d[0]);
    assert FirstBracketDigit(s) == Some(0);
    LeadingDigitsOfRun(d, rest);
    assert LeadingDigits(s[1..]) == d;
    NatToStringValue(y);
    assert BirthPeriod(Str(s)) == Some(DigitsValue(d));
  }

  // ---------------------------------------------------------------------
  // Age groups

  const AgeGroupLabels: seq<string> :=
    ["1960s (~55-65)", "1970s (~45-55)", "1980s (~35-45)", "1990s (~25-35)", "2000s+ (<25)"]

  /** The bin edges of `pd.cut`; bin k is AgeEdges[k] < p <= AgeEdges[k + 1]. */
  const AgeEdges: seq<real> := [1960.0, 1970.0, 1980.0, 1990.0, 2000.0, 2025.0]

  /** The right-closed bin of a birth period, none outside (1960, 2025]. */
  function AgeBin(x: real): (k: Option<nat>)
    ensures k.Some? <==> AgeEdges[0] < x <= AgeEdges[5]
    ensures k.Some? ==> k.value < 5 && AgeEdges[k.value] < x <= AgeEdges[k.value + 1]
  {
    if x <= 1960.0 || x > 2025.0 then None
    else if x <= 1970.0 then Some(0)
    else if x <= 1980.0 then Some(1)
    else if x <= 1990.0 then Some(2)
    else if x <= 2000.0 then Some(3)
    else Some(4)
  }

  /** `pd.cut(birth_period, bins, labels)` on one cell. */
  function AgeGroup(c: Cell): (r: Cell)
    ensures r != Missing <==> c.Number? && 1960.0 < c.x <= 2025.0
    ensures r != Missing ==> r.Str? && r.s in AgeGroupLabels
  {
    if c.Number? then
      match AgeBin(c.x)
      case None => Missing
      case Some(k) => Str(AgeGroupLabels[k])
    else Missing
  }

  /** `2025 - birth_period` on one cell. */
  function ApproxAge(c: Cell): (r: Cell)
    ensures r.Number? <==> c.Number?
    ensures r.Number? ==> c.x + r.x == 2025.0
    ensures !r.Number? ==> r == Missing
  {
    if c.Number? then Number(2025.0 - c.x) else Missing
  }

  function BirthCell(c: Cell): Cell
  {
    match BirthPeriod(c)
    case None => Missing
    case Some(y) => Number(y as real)
  }

  /** The youngest and oldest ages (exclusive) each label announces. */
  const AgeLow: seq<real> := [55.0, 45.0, 35.0, 25.0, 0.0]
  const AgeHigh: seq<real> := [65.0, 55.0, 45.0, 35.0, 25.0]

  /** A birth period gets a group exactly inside (1960, 2025]; the
      approximate age then lies in the range the group's label announces,
      and a later period never gets an earlier group. */
  lemma AgeGroupAges(x: real, y: real, k: nat)
    requires k < 5
    ensures AgeGroup(Number(x)) != Missing <==> 1960.0 < x <= 2025.0
    ensures AgeGroup(Number(x)) == Str(AgeGroupLabels[k]) ==>
              AgeLow[k] <= ApproxAge(Number(x)).x < AgeHigh[k]
    ensures x <= y && AgeBin(x).Some? && AgeBin(y).Some? ==> AgeBin(x).value <= AgeBin(y).value
  {
    if AgeGroup(Number(x)) == Str(AgeGroupLabels[k]) {
      var j := AgeBin(x).value;
      assert AgeGroupLabels[j] == AgeGroupLabels[k];
      assert j == k;
    }
  }

  /** A period on a decade edge falls in the group of the decade before:
      1970 is in "1960s (~55-65)", and 1960 is in no group. */
  lemma DecadeEdgeInEarlierGroup(k: nat)
    requires 1 <= k < 5
    ensures AgeGroup(Number(AgeEdges[k])) == Str(AgeGroupLabels[k - 1])
    ensures AgeGroup(Number(AgeEdges[0])) == Missing
  {
  }

  /** The three age columns, assigned in order. */
  const AgePlan: seq<Step> := [
    Step("ano_nascimento_interval", "birth_period", BirthCell),
    Step("birth_period", "approx_age", ApproxAge),
    Step("birth_period", "age_group", AgeGroup)]

  /** Adds `birth_period`, `approx_age` and `age_group` in place. */
  method AddAgeColumns(df: DataFrame)
    modifies df
    ensures df.columns == AddColumns(old(df.columns), Names(AgePlan))
    ensures |df.rows| == |old(df.rows)|
    ensures forall i :: 0 <= i < |df.rows| ==> df.rows[i] == Run(old(df.rows[i]), AgePlan)
  {
    ghost var raw := Table(df.columns, df.rows);
    assert After(df, raw, []);
    Step1(df, raw, [], AgePlan[0]);
    assert [] + [AgePlan[0]] == [AgePlan[0]];
    Step1(df, raw, [AgePlan[0]], AgePlan[1]);
    Step1(df, raw, [AgePlan[0]] + [AgePlan[1]], AgePlan[2]);
    assert [AgePlan[0]] + [AgePlan[1]] + [AgePlan[2]] == AgePlan;
  }

  /** After the three assignments a row's age group and approximate age
      are those of the birth period read from its interval. */
  lemma AgeColumnsOfRow(r: Row)
    ensures var b := BirthCell(Get(r, "ano_nascimento_interval"));
      var after := Run(r, AgePlan);
      Get(after, "birth_period") == b &&
      Get(after, "approx_age") == ApproxAge(b) &&
      Get(after, "age_group") == AgeGroup(b)
  {
    var b := BirthCell(Get(r, "ano_nascimento_interval"));
    var r1 := ApplyStep(r, AgePlan[0]);
    var r2 := ApplyStep(r1, AgePlan[1]);
    assert Get(r2, "birth_period") == b;
    assert AgePlan[..1] == [AgePlan[0]] && AgePlan[..2] == AgePlan[..1] + [AgePlan[1]];
    assert AgePlan == AgePlan[..2] + [AgePlan[2]];
    assert Run(r, AgePlan[..1]) == r1;
    assert Run(r, AgePlan[..2]) == r2;
  }

  // ---------------------------------------------------------------------
  // Strategy labels

  /** `strategy.replace('_', ' ').replace('-', ' ').capitalize()`. */
  function CleanStrategy(t: string): (s: string)
    ensures |s| == |t|
    ensures |t| > 0 ==> s[0] == UpperChar(if t[0] == '_' || t[0] == '-' then ' ' else t[0])
    ensures forall i :: 1 <= i < |t| ==> s[i] == (if t[i] == '_' || t[i] == '-' then ' ' else LowerChar(t[i]))
    ensures CleanShape(s)
  {
    var x := ReplaceChar(ReplaceChar(t, '_', ' '), '-', ' ');
    var s := Capitalize(x);
    assert forall i :: 0 <= i < |x| ==> x[i] != '-';
    s
  }

  /** What cleaning leaves: no dash, a first character that is not a
      lower-case letter and no capital after it. */
  predicate CleanShape(s: string)
  {
    '-' !in s &&
    (|s| > 0 ==> !IsLowerAscii(s[0])) &&
    forall i :: 1 <= i < |s| ==> !IsUpperAscii(s[i])
  }

  /** `strategy.lower().replace(' ', '-')`, the key of the label maps. */
  function StrategyKey(s: string): (k: string)
    ensures |k| == |s|
    ensures forall i :: 0 <= i < |s| ==> k[i] == if LowerChar(s[i]) == ' ' then '-' else LowerChar(s[i])
  {
    ReplaceChar(Lower(s), ' ', '-')
  }

  /** No underscore, no space and no capital. */
  predicate KeyForm(t: string)
  {
    forall i :: 0 <= i < |t| ==> t[i] != '_' && t[i] != ' ' && !IsUpperAscii(t[i])
  }

  /** Cleaning a raw answer and taking its key gives the answer back
      exactly when it has no underscore, no space and no capital, so the
      label lookup of a survey token such as "arrendamento-partilhado"
      succeeds. */
  lemma KeyOfCleanStrategy(t: string)
    ensures StrategyKey(CleanStrategy(t)) == t <==> KeyForm(t)
  {
  }

  /** Two cleaned labels with the same key are the same label. */
  lemma StrategyKeyInjective(a: string, b: string)
    requires CleanShape(a) && CleanShape(b)
    requires StrategyKey(a) == StrategyKey(b)
    ensures a == b
  {
    var ka := StrategyKey(a);
    forall i | 0 <= i < |a|
      ensures a[i] == b[i]
    {
      assert a[i] != '-' && b[i] != '-';
      if i > 0 {
        assert !IsUpperAscii(a[i]) && !IsUpperAscii(b[i]);
      }
    }
  }

  // ---------------------------------------------------------------------
  // Collecting the strategies

  /** The answers of a list cell; any other cell has none. */
  function ListItems(c: Cell): seq<string>
  {
    if c.Tokens? then c.items else []
  }

  /** All answers of the list cells, in row order. */
  function Flatten(cells: seq<Cell>): (all: seq<string>)
    ensures forall t :: t in all <==> exists i :: 0 <= i < |cells| && t in ListItems(cells[i])
  {
    if cells == [] then []
    else
      var front := cells[..|cells| - 1];
      var rest := Flatten(front);
      assert forall i :: 0 <= i < |front| ==> front[i] == cells[i];
      rest + ListItems(cells[|cells| - 1])
  }

  /** The number of answers over all list cells. */
  function AnswerCount(cells: seq<Cell>): nat
  {
    if cells == [] then 0 else |ListItems(cells[0])| + AnswerCount(cells[1..])
  }

  lemma {:induction false} FlattenCons(cells: seq<Cell>)
    requires cells != []
    ensures Flatten(cells) == ListItems(cells[0]) + Flatten(cells[1..])
    decreases |cells|
  {
    if |cells| > 1 {
      var n := |cells| - 1;
      assert cells[..n][0] == cells[0];
      assert cells[..n][1..] == cells[1..][..n - 1];
      FlattenCons(cells[..n]);
      assert cells[1..][n - 1] == cells[n];
    } else {
      assert cells[1..] == [];
    }
  }

  /** The strategy counts add up to the number of answers given:
      the flattened list holds every answer once. */
  lemma {:induction false} FlattenLength(cells: seq<Cell>)
    ensures |Flatten(cells)| == AnswerCount(cells)
    decreases |cells|
  {
    if cells != [] {
      FlattenCons(cells);
      FlattenLength(cells[1..]);
    }
  }

  /** The loop extending one list with every list answer. */
  method CollectStrategies(cells: seq<Cell>) returns (all: seq<string>)
    ensures all == Flatten(cells)
  {
    all := [];
    for i := 0 to |cells|
      invariant all == Flatten(cells[..i])
    {
      assert cells[..i + 1][..i] == cells[..i];
      if cells[i].Tokens? {
        all := all + cells[i].items;
      }
    }
    assert cells[..|cells|] == cells;
  }

  /** The inner loop: every answer of one list added to the set. */
  method AddAnswers(found: set<string>, items: seq<string>) returns (r: set<string>)
    ensures r == found + set t | t in items
  {
    r := found;
    for j := 0 to |items|
      invariant r == found + set t | t in items[..j]
    {
      assert items[..j + 1] == items[..j] + [items[j]];
      r := r + {items[j]};
    }
    assert items[..|items|] == items;
  }

  /** The second loop: every distinct answer cleaned. */
  method CleanAll(found: set<string>) returns (cleaned: set<string>)
    ensures cleaned == set t | t in found :: CleanStrategy(t)
  {
    cleaned := {};
    var left := found;
    while left != {}
      invariant left <= found
      invariant cleaned == set t | t in found - left :: CleanStrategy(t)
      decreases left
    {
      var t :| t in left;
      cleaned := cleaned + {CleanStrategy(t)};
      left := left - {t};
    }
  }

  /** `check_unique_strategies` for one column: the distinct answers of the
      list cells, each cleaned. */
  method UniqueStrategies(cells: seq<Cell>) returns (cleaned: set<string>)
    ensures cleaned == set t | t in Flatten(cells) :: CleanStrategy(t)
  {
    var found: set<string> := {};
    for i := 0 to |cells|
      invariant found == set t | t in Flatten(cells[..i])
    {
      assert cells[..i + 1][..i] == cells[..i];
      if cells[i].Tokens? {
        found := AddAnswers(found, cells[i].items);
      }
    }
    assert cells[..|cells|] == cells;
    cleaned := CleanAll(found);
  }

  /** `{s.lower().replace(' ', '-'): s for s in cleaned}`, built entry by
      entry: every key maps to a label that has that key, and when every
      label is a cleaned one, each label is found under its own key. */
  method StrategyMap(cleaned: set<string>) returns (m: map<string, string>)
    ensures m.Keys == set s | s in cleaned :: StrategyKey(s)
    ensures forall k :: k in m ==> m[k] in cleaned && StrategyKey(m[k]) == k
    ensures (forall s :: s in cleaned ==> CleanShape(s)) ==>
              forall s :: s in cleaned ==> StrategyKey(s) in m && m[StrategyKey(s)] == s
  {
    m := map[];
    var left := cleaned;
    while left != {}
      invariant left <= cleaned
      invariant m.Keys == set s | s in cleaned - left :: StrategyKey(s)
      invariant forall k :: k in m ==> m[k] in cleaned && StrategyKey(m[k]) == k
      decreases left
    {
      var s :| s in left;
      m := m[StrategyKey(s) := s];
      left := left - {s};
    }
    if forall s :: s in cleaned ==> CleanShape(s) {
      forall s | s in cleaned
        ensures StrategyKey(s) in m && m[StrategyKey(s)] == s
      {
        var v := m[StrategyKey(s)];
        StrategyKeyInjective(v, s);
      }
    }
  }

  /** The label map built from a column's strategies finds every raw
      answer without underscore, space or capital under that answer, with
      its cleaned label. */
  lemma StrategyLabelFound(cells: seq<Cell>, cleaned: set<string>, m: map<string, string>, t: string)
    requires cleaned == set x | x in Flatten(cells) :: CleanStrategy(x)
    requires forall s :: s in cleaned ==> StrategyKey(s) in m && m[StrategyKey(s)] == s
    requires t in Flatten(cells) && KeyForm(t)
    ensures t in m && m[t] == CleanStrategy(t)
  {
    KeyOfCleanStrategy(t);
  }

  // ---------------------------------------------------------------------
  // Satisfaction of a list answer

  /** `satisfaction_map` of the tab, on the survey's own tokens. */
  const AnswerScores: map<string, int> :=
    map["muito-satisfeito" := 5, "satisfeito" := 4, "indiferente" := 3,
        "insatisfeito" := 2, "muito-insatisfeito" := 1]

  /** `get_satisfaction_value`: the score of the first answer of a
      non-empty list, missing otherwise. */
  function SatisfactionValue(c: Cell): (v: Cell)
    ensures v != Missing <==> c.Tokens? && |c.items| > 0 && c.items[0] in AnswerScores
    ensures v != Missing ==> v.Number? && 1.0 <= v.x <= 5.0
  {
    if c.Tokens? && |c.items| > 0 && c.items[0] in AnswerScores then
      Number(AnswerScores[c.items[0]] as real)
    else Missing
  }

  /** The tab's score of an answer is the satisfaction tab's score of its
      normalised label. */
  lemma AnswerScoresAgree(t: string)
    ensures t in AnswerScores <==> t in SatisfactionMap
    ensures t in AnswerScores ==>
              SatisfactionMap[t] in SatisfactionScores && AnswerScores[t] == SatisfactionScores[SatisfactionMap[t]]
  {
    assert AnswerScores.Keys == SatisfactionMap.Keys;
  }

  /** On a normalised row, the numeric satisfaction of the answer list is
      the score of `satisfaction_level`. */
  lemma SatisfactionValueOfRow(cols: seq<string>, r: Row)
    requires "satisfacao" in cols
    ensures var n := NormalizeRow(cols, r);
      SatisfactionValue(Get(n, "satisfacao")) == ScoreCell(Get(n, "satisfaction_level"), SatisfactionScores)
  {
    NormalizedSatisfaction(cols, r);
    NormalizedSatisfactionAnswer(cols, r);
    var c := CleanList(Get(r, "satisfacao"));
    if c.Tokens? && |c.items| > 0 {
      AnswerScoresAgree(c.items[0]);
    }
  }

  /** `df['satisfaction_numeric'] = df['satisfacao'].apply(get_satisfaction_value)`. */
  method AddSatisfactionNumeric(df: DataFrame)
    modifies df
    ensures df.columns == AddColumn(old(df.columns), "satisfaction_numeric")
    ensures |df.rows| == |old(df.rows)|
    ensures forall i :: 0 <= i < |df.rows| ==>
              df.rows[i] == old(df.rows[i])["satisfaction_numeric" := SatisfactionValue(Get(old(df.rows[i]), "satisfacao"))]
  {
    df.Assign(Step("satisfacao", "satisfaction_numeric", SatisfactionValue));
  }

  // ---------------------------------------------------------------------
  // Housing-situation filter

  /** The choices of the select box. */
  const HousingChoices: seq<string> := ["Arrendamento", "Casa Própria", "Others", "Todas"]

  /** `map_housing`: each choice maps to itself. */
  const HousingChoiceMap: map<string, string> :=
    map["Arrendamento" := "Arrendamento", "Casa Própria" := "Casa Própria", "Others" := "Others"]

  /** The filter as written: "Todas" keeps the table, any other choice
      keeps the rows whose housing situation is the choice's own text. */
  function HousingFilter(rows: seq<Row>, selected: string): (r: seq<Row>)
    requires selected in HousingChoices
    ensures selected == "Todas" ==> r == rows
    ensures forall x :: x in r <==> x in rows && (selected == "Todas" || Get(x, "housing_situation") == Str(selected))
    ensures SubsequenceOf(r, rows)
  {
    if selected != "Todas" then Select(rows, HasHousing(HousingChoiceMap[selected]))
    else
      SubsequenceRefl(rows);
      rows
  }

  /** On a table `load_data` produced, every choice but "Todas" keeps no
      row: the normalised housing situation is "Renting", "Owned", "Living
      with others" or missing, never a choice's text. */
  lemma HousingFilterFindsNothing(cols: seq<string>, raw: seq<Row>, rows: seq<Row>, selected: string)
    requires "situacao-habitacional" in cols
    requires |rows| == |raw| && forall i :: 0 <= i < |rows| ==> rows[i] == NormalizeRow(cols, raw[i])
    requires selected in HousingChoices && selected != "Todas"
    ensures HousingFilter(rows, selected) == []
  {
    var keep := HasHousing(HousingChoiceMap[selected]);
    forall x | x in rows
      ensures !keep(x)
    {
      var i :| 0 <= i < |rows| && rows[i] == x;
      HousingSituationRange(cols, raw[i]);
    }
    SelectNone(rows, keep);
  }

  /** The normalised label each choice stands for. */
  const HousingChoiceLabels: map<string, string> :=
    map["Arrendamento" := "Renting", "Casa Própria" := "Owned", "Others" := "Living with others"]

  /** The survey answer behind each choice. */
  const HousingChoiceAnswers: map<string, string> :=
    map["Arrendamento" := "arrendo", "Casa Própria" := "comprei", "Others" := "outrem"]

  /** The filter with each choice mapped to the label `load_data` writes. */
  function HousingFilterFixed(rows: seq<Row>, selected: string): (r: seq<Row>)
    requires selected in HousingChoices
    ensures selected == "Todas" ==> r == rows
    ensures selected != "Todas" ==>
      forall x :: x in r <==> x in rows && Get(x, "housing_situation") == Str(HousingChoiceLabels[selected])
    ensures SubsequenceOf(r, rows)
  {
    if selected != "Todas" then Select(rows, HasHousing(HousingChoiceLabels[selected]))
    else
      SubsequenceRefl(rows);
      rows
  }

  /** Each choice's survey answer is normalised to the choice's label. */
  lemma ChoiceAnswerLabel(selected: string)
    requires selected in HousingChoices && selected != "Todas"
    ensures selected in HousingChoiceAnswers && selected in HousingChoiceLabels
    ensures HousingChoiceAnswers[selected] in HousingMap
    ensures HousingMap[HousingChoiceAnswers[selected]] == HousingChoiceLabels[selected]
  {
  }

  /** With the labels mapped, a choice keeps a normalised row exactly when
      the row's first housing answer is the choice's survey answer. */
  lemma HousingFilterFixedSelectsAnswer(cols: seq<string>, rows: seq<Row>, r: Row, selected: string)
    requires "situacao-habitacional" in cols
    requires selected in HousingChoices && selected != "Todas"
    requires NormalizeRow(cols, r) in rows
    ensures NormalizeRow(cols, r) in HousingFilterFixed(rows, selected) <==>
            Primary(CleanList(Get(r, "situacao-habitacional"))) == Str(HousingChoiceAnswers[selected])
  {
    NormalizedHousing(cols, r);
    var p := Primary(CleanList(Get(r, "situacao-habitacional")));
    var name := HousingChoiceLabels[selected];
    var answer := HousingChoiceAnswers[selected];
    ChoiceAnswerLabel(selected);
    if MapVocab(p, HousingMap) == Str(name) {
      HousingInjective();
      assert HousingMap[p.s] == HousingMap[answer];
    }
  }
}
