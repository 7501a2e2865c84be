/** `load_data` once the CSV has been read: the DataFrame it changes
    column by column, step by step, ending with every normalised column
    of the plan in place. */
module Loading {
  import opened Text
  import opened Frame
  import opened Normalize
  import opened Pipeline

  /** The table `load_data` works on. */
  class DataFrame {
    var columns: seq<string>
    var rows: seq<Row>

    constructor (t: Table)
      ensures columns == t.columns && rows == t.rows
    {
      columns := t.columns;
      rows := t.rows;
    }

    /** `df[s.name] = df[s.src].apply(s.f)`: the column is added at the end
        when new and replaced in place otherwise, on every row. */
    method Assign(s: Step)
      modifies this
      ensures columns == AddColumn(old(columns), s.name)
      ensures |rows| == |old(rows)|
      ensures forall i :: 0 <= i < |rows| ==> rows[i] == ApplyStep(old(rows)[i], s)
    {
      var before := rows;
      columns := AddColumn(columns, s.name);
      rows := seq(|before|, i requires 0 <= i < |before| => ApplyStep(before[i], s));
    }

    /** `df[name] = df.apply(f, axis=1)`: a column computed from whole rows. */
    method AssignWith(name: string, f: Row -> Cell)
      modifies this
      ensures columns == AddColumn(old(columns), name)
      ensures |rows| == |old(rows)|
      ensures forall i :: 0 <= i < |rows| ==> rows[i] == old(rows)[i][name := f(old(rows)[i])]
    {
      var before := rows;
      columns := AddColumn(columns, name);
      rows := seq(|before|, i requires 0 <= i < |before| => before[i][name := f(before[i])]);
    }
  }

  /** `df` is the raw table after the steps `done`. */
  ghost predicate After(df: DataFrame, raw: Table, done: seq<Step>)
    reads df
  {
    df.columns == AddColumns(raw.columns, Names(done)) &&
    |df.rows| == |raw.rows| &&
    forall i :: 0 <= i < |raw.rows| ==> df.rows[i] == Run(raw.rows[i], done)
  }

  lemma NamesSnoc(done: seq<Step>, s: Step)
    ensures Names(done + [s]) == Names(done) + [s.name]
  {
  }

  /** Column `key` is among the columns a plan assigns exactly when some
      step writes it. */
  lemma NamesWrites(plan: seq<Step>, key: string)
    ensures key in Names(plan) <==> Writes(plan, key)
  {
    if key in Names(plan) {
      var i :| 0 <= i < |plan| && Names(plan)[i] == key;
    }
  }

  /** One assignment, keeping `df` in step with the plan. */
  method Step1(df: DataFrame, ghost raw: Table, ghost done: seq<Step>, s: Step)
    requires After(df, raw, done)
    modifies df
    ensures After(df, raw, done + [s])
  {
    df.Assign(s);
    NamesSnoc(done, s);
    AddColumnsAppend(raw.columns, Names(done), s.name);
    forall i | 0 <= i < |raw.rows|
      ensures df.rows[i] == Run(raw.rows[i], done + [s])
    {
      RunSnoc(raw.rows[i], done, s);
    }
  }

  /** A list column is in the frame during the list loop exactly when it
      was in the raw table: the loop adds only the columns it has reached
      and `_primary` names. */
  lemma ListColumnPresent(cols: seq<string>, todo: seq<string>, k: nat)
    requires k < |todo| && Distinct(todo)
    requires forall x :: x in todo ==> |x| > 0 && x[|x| - 1] != 'y'
    ensures todo[k] in AddColumns(cols, Names(ListPlan(cols, todo[..k]))) <==> todo[k] in cols
  {
    var c := todo[k];
    DistinctPrefix(todo, k);
    assert c in todo[k..];
    ListPlanKeeps(cols, todo[..k], c);
    NamesWrites(ListPlan(cols, todo[..k]), c);
  }

  /** A column pandas reads as numbers: the table has rows and none of them
      holds text or a list in it. `.str` on such a column raises
      `AttributeError`. */
  predicate NumericColumn(rows: seq<Row>, c: string)
  {
    |rows| > 0 && forall i :: 0 <= i < |rows| ==> Get(rows[i], c).Missing? || Get(rows[i], c).Number?
  }

  /** The column the list loop reaches has not been written yet, so the frame
      still holds its raw cells. */
  lemma ReachedColumnRaw(df: DataFrame, raw: Table, todo: seq<string>, k: nat)
    requires k < |todo| && Distinct(todo)
    requires forall x :: x in todo ==> |x| > 0 && x[|x| - 1] != 'y'
    requires After(df, raw, ListPlan(raw.columns, todo[..k]))
    ensures NumericColumn(df.rows, todo[k]) <==> NumericColumn(raw.rows, todo[k])
  {
    var c := todo[k];
    var done := ListPlan(raw.columns, todo[..k]);
    DistinctPrefix(todo, k);
    assert c in todo[k..];
    ListPlanKeeps(raw.columns, todo[..k], c);
    forall i | 0 <= i < |raw.rows|
      ensures Get(df.rows[i], c) == Get(raw.rows[i], c)
    {
      RunUntouched(raw.rows[i], done, c);
    }
    SameColumn(df.rows, raw.rows, c);
  }

  lemma SameColumn(a: seq<Row>, b: seq<Row>, c: string)
    requires |a| == |b|
    requires forall i :: 0 <= i < |a| ==> Get(a[i], c) == Get(b[i], c)
    ensures NumericColumn(a, c) <==> NumericColumn(b, c)
  {
  }

  /** The two assignments of the list loop for a present column. */
  method CleanPresent(df: DataFrame, ghost raw: Table, ghost done: seq<Step>, col: string)
    requires col in raw.columns
    requires After(df, raw, done)
    modifies df
    ensures After(df, raw, done + ListSteps(raw.columns, col))
  {
    var clean := Step(col, col, CleanList);
    var first := Step(col, PrimaryName(col), Primary);
    Step1(df, raw, done, clean);
    Step1(df, raw, done + [clean], first);
    assert done + [clean] + [first] == done + ListSteps(raw.columns, col);
  }

  /** One turn of the list loop: the column it reaches is cleaned and gets
      its `_primary` column when present, and `.str` raises when pandas
      reads it as numbers. */
  method CleanOne(df: DataFrame, ghost raw: Table, todo: seq<string>, k: nat) returns (ok: bool)
    requires k < |todo| && Distinct(todo)
    requires forall x :: x in todo ==> |x| > 0 && x[|x| - 1] != 'y'
    requires After(df, raw, ListPlan(raw.columns, todo[..k]))
    modifies df
    ensures ok <==> !(todo[k] in raw.columns && NumericColumn(raw.rows, todo[k]))
    ensures ok ==> After(df, raw, ListPlan(raw.columns, todo[..k + 1]))
  {
    ghost var cols := raw.columns;
    ghost var done := ListPlan(cols, todo[..k]);
    var col := todo[k];
    assert todo[..k + 1][..k] == todo[..k];
    ListColumnPresent(cols, todo, k);
    if col in df.columns {
      ReachedColumnRaw(df, raw, todo, k);
      if NumericColumn(df.rows, col) {
        return false;
      }
      CleanPresent(df, raw, done, col);
    } else {
      assert done + ListSteps(cols, col) == done;
    }
    return true;
  }

  /** The first loop over the columns `todo`: every one present is cleaned
      and gets its `_primary` column. It fails, as `.str` raises, at the
      first present column pandas reads as numbers. */
  method CleanColumns(df: DataFrame, ghost raw: Table, todo: seq<string>) returns (ok: bool)
    requires df.columns == raw.columns && df.rows == raw.rows
    requires Distinct(todo)
    requires forall x :: x in todo ==> |x| > 0 && x[|x| - 1] != 'y'
    modifies df
    ensures ok <==> forall c :: c in todo && c in raw.columns ==> !NumericColumn(raw.rows, c)
    ensures ok ==> After(df, raw, ListPlan(raw.columns, todo))
  {
    assert forall i :: 0 <= i < |raw.rows| ==> df.rows[i] == Run(raw.rows[i], []);
    assert todo[..0] == [];
    for k := 0 to |todo|
      invariant After(df, raw, ListPlan(raw.columns, todo[..k]))
      invariant forall j :: 0 <= j < k ==> !(todo[j] in raw.columns && NumericColumn(raw.rows, todo[j]))
    {
      var fine := CleanOne(df, raw, todo, k);
      if !fine {
        return false;
      }
    }
    assert todo[..|todo|] == todo;
    forall c | c in todo && c in raw.columns
      ensures !NumericColumn(raw.rows, c)
    {
      var j :| 0 <= j < |todo| && todo[j] == c;
    }
    return true;
  }

  /** The seven assignments between the two loops. */
  method DeriveAnswers(df: DataFrame, ghost raw: Table, ghost done: seq<Step>)
    requires After(df, raw, done)
    modifies df
    ensures After(df, raw, done + ScalarPlan)
  {
    var s0 := Step("rendimento-anual", "rendimento_numerical", IncomeCell);
    var s1 := Step(PrimaryName("situacao-habitacional"), "housing_situation", Vocab(HousingMap));
    var s2 := Step(PrimaryName("satisfacao"), "satisfaction_level", Vocab(SatisfactionMap));
    var s3 := Step("area-util", "area_numerical", AreaCell);
    var s4 := Step("percentagem-renda-paga", "rent_burden", BurdenCell);
    var s5 := Step(PrimaryName("tipo-casa"), "house_type", Vocab(HouseTypeMap));
    var s6 := Step(PrimaryName("tipologia"), "bedroom_count", Vocab(BedroomMap));
    Step1(df, raw, done, s0);
    Step1(df, raw, done + [s0], s1);
    Step1(df, raw, done + [s0] + [s1], s2);
    Step1(df, raw, done + [s0] + [s1] + [s2], s3);
    Step1(df, raw, done + [s0] + [s1] + [s2] + [s3], s4);
    Step1(df, raw, done + [s0] + [s1] + [s2] + [s3] + [s4], s5);
    Step1(df, raw, done + [s0] + [s1] + [s2] + [s3] + [s4] + [s5], s6);
    assert done + [s0] + [s1] + [s2] + [s3] + [s4] + [s5] + [s6] == done + ScalarPlan;
  }

  /** The second loop: one flag column per dissatisfaction reason. */
  method FlagReasons(df: DataFrame, ghost raw: Table, ghost done: seq<Step>)
    requires After(df, raw, done)
    modifies df
    ensures After(df, raw, done + ReasonPlan(Reasons))
  {
    assert Reasons[..0] == [];
    assert done + ReasonPlan([]) == done;
    for k := 0 to |Reasons|
      invariant After(df, raw, done + ReasonPlan(Reasons[..k]))
    {
      var reason := Reasons[k];
      ghost var front := ReasonPlan(Reasons[..k]);
      assert Reasons[..k + 1][..k] == Reasons[..k];
      Step1(df, raw, done + front, FlagStep(reason));
      assert done + front + [FlagStep(reason)] == done + ReasonPlan(Reasons[..k + 1]);
    }
    assert Reasons[..|Reasons|] == Reasons;
  }

  /** The last two assignments. */
  method DeriveBackground(df: DataFrame, ghost raw: Table, ghost done: seq<Step>)
    requires After(df, raw, done)
    modifies df
    ensures After(df, raw, done + TailPlan)
  {
    var s0 := Step(PrimaryName("situacao-profissional"), "employment_status", Vocab(EmploymentMap));
    var s1 := Step("educacao", "education_level", Vocab(EducationMap));
    Step1(df, raw, done, s0);
    Step1(df, raw, done + [s0], s1);
    assert done + [s0] + [s1] == done + TailPlan;
  }

  /** Some column `load_data` reads without checking is absent: pandas
      raises `KeyError`. */
  predicate MissingRequired(cols: seq<string>)
  {
    exists c :: c in RequiredColumns && c !in cols
  }

  /** A present list column that pandas reads as numbers: `.str` raises
      `AttributeError` in the list loop. */
  predicate ListColumnNotText(t: Table)
  {
    exists c :: c in ListColumns && c in t.columns && NumericColumn(t.rows, c)
  }

  /** A number in `area-util` (the column was read as numbers): `parse_area`
      tests `'-' in` it and raises `TypeError`. */
  predicate NumericArea(t: Table)
  {
    exists i :: 0 <= i < |t.rows| && Get(t.rows[i], "area-util").Number?
  }

  /** The tables on which `load_data` raises. */
  predicate LoadFails(t: Table)
  {
    ListColumnNotText(t) || MissingRequired(t.columns) || NumericArea(t)
  }

  /** `load_data` after the CSV has been read: `None` is the exception of a
      table it cannot process; otherwise the frame holds every raw row
      normalised, in the same order, and the raw columns followed by the
      new ones. */
  method LoadData(raw: Table) returns (result: Option<DataFrame>)
    ensures result.None? <==> LoadFails(raw)
    ensures result.Some? ==> fresh(result.value)
    ensures result.Some? ==> result.value.columns == NormalizedColumns(raw.columns)
    ensures result.Some? ==> |result.value.rows| == |raw.rows|
    ensures result.Some? ==> forall i :: 0 <= i < |raw.rows| ==>
              result.value.rows[i] == NormalizeRow(raw.columns, raw.rows[i])
  {
    var df := new DataFrame(raw);
    ListColumnsShape();
    var ok := CleanColumns(df, raw, ListColumns);
    if !ok {
      assert ListColumnNotText(raw);
      return None;
    }
    if MissingRequired(raw.columns) || NumericArea(raw) {
      return None;
    }
    assert !ListColumnNotText(raw);
    ghost var L := ListPlan(raw.columns, ListColumns);
    DeriveAnswers(df, raw, L);
    FlagReasons(df, raw, L + ScalarPlan);
    DeriveBackground(df, raw, L + ScalarPlan + ReasonPlan(Reasons));
    return Some(df);
  }
}
