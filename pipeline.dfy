/** `load_data` as a plan: the ordered list of column assignments
    `df[name] = df[src].apply(rule)` it performs, the same on every row, and
    what each normalised column holds once the whole plan has run. */
module Pipeline {
  import opened Text
  import opened Frame
  import opened Normalize

  /** One assignment `df[name] = df[src].apply(f)` (or `.map(table)`, which
      is `apply` with a dictionary lookup). */
  datatype Step = Step(src: string, name: string, f: Cell -> Cell)

  /** The assignment on one row: column `name` gets `f` of column `src`,
      and no other column changes. */
  function ApplyStep(r: Row, s: Step): (r': Row)
    ensures Get(r', s.name) == s.f(Get(r, s.src))
    ensures forall key :: key != s.name ==> Get(r', key) == Get(r, key)
  {
    r[s.name := s.f(Get(r, s.src))]
  }

  /** The row after the steps of `plan`, first to last. */
  function Run(r: Row, plan: seq<Step>): Row
  {
    if plan == [] then r else ApplyStep(Run(r, plan[..|plan| - 1]), plan[|plan| - 1])
  }

  /** Some step of `plan` assigns column `key`. */
  predicate Writes(plan: seq<Step>, key: string)
  {
    exists i :: 0 <= i < |plan| && plan[i].name == key
  }

  /** The columns a plan assigns, in order. */
  function Names(plan: seq<Step>): (ns: seq<string>)
    ensures |ns| == |plan|
    ensures forall i :: 0 <= i < |plan| ==> ns[i] == plan[i].name
  {
    seq(|plan|, i requires 0 <= i < |plan| => plan[i].name)
  }

  // ---------------------------------------------------------------------
  // Running a plan

  lemma RunSnoc(r: Row, plan: seq<Step>, s: Step)
    ensures Run(r, plan + [s]) == ApplyStep(Run(r, plan), s)
  {
    assert (plan + [s])[..|plan|] == plan;
  }

  /** Running two plans one after the other is running their concatenation. */
  lemma {:induction false} RunAppend(r: Row, a: seq<Step>, b: seq<Step>)
    ensures Run(r, a + b) == Run(Run(r, a), b)
    decreases |b|
  {
    if b == [] {
      assert a + b == a;
    } else {
      var front := b[..|b| - 1];
      assert a + b == (a + front) + [b[|b| - 1]];
      RunSnoc(r, a + front, b[|b| - 1]);
      RunAppend(r, a, front);
    }
  }

  lemma WritesAppend(a: seq<Step>, b: seq<Step>, key: string)
    ensures Writes(a + b, key) <==> Writes(a, key) || Writes(b, key)
  {
    if Writes(a + b, key) {
      var i :| 0 <= i < |a + b| && (a + b)[i].name == key;
      if i >= |a| {
        assert b[i - |a|] == (a + b)[i];
      }
    }
    if Writes(a, key) {
      var i :| 0 <= i < |a| && a[i].name == key;
      assert (a + b)[i] == a[i];
    }
    if Writes(b, key) {
      var i :| 0 <= i < |b| && b[i].name == key;
      assert (a + b)[|a| + i] == b[i];
    }
  }

  /** A column no step assigns keeps its value. */
  lemma {:induction false} RunUntouched(r: Row, plan: seq<Step>, key: string)
    requires !Writes(plan, key)
    ensures Get(Run(r, plan), key) == Get(r, key)
    decreases |plan|
  {
    if plan != [] {
      var front := plan[..|plan| - 1];
      assert plan == front + [plan[|plan| - 1]];
      WritesAppend(front, [plan[|plan| - 1]], key);
      RunUntouched(r, front, key);
    }
  }

  /** A run leaves every column it does not assign as it was. */
  lemma RunKeepsUnwritten(r: Row, plan: seq<Step>)
    ensures forall key :: !Writes(plan, key) ==> Get(Run(r, plan), key) == Get(r, key)
  {
    forall key | !Writes(plan, key)
      ensures Get(Run(r, plan), key) == Get(r, key)
    {
      RunUntouched(r, plan, key);
    }
  }

  /** The last assignment to a column decides its value: after `a`, step
      `s`, then steps `b` none of which assigns `s.name`. */
  lemma RunWrite(r: Row, a: seq<Step>, s: Step, b: seq<Step>)
    requires !Writes(b, s.name)
    ensures Get(Run(r, a + [s] + b), s.name) == s.f(Get(Run(r, a), s.src))
  {
    RunAppend(r, a + [s], b);
    RunUntouched(Run(r, a + [s]), b, s.name);
    RunSnoc(r, a, s);
  }

  // ---------------------------------------------------------------------
  // The plan of `load_data`

  function PrimaryName(col: string): string
  {
    col + "_primary"
  }

  lemma PrimaryNameInjective(a: string, b: string)
    ensures PrimaryName(a) == PrimaryName(b) ==> a == b
  {
    if PrimaryName(a) == PrimaryName(b) {
      assert |a| == |b|;
      assert a == PrimaryName(a)[..|a|];
      assert b == PrimaryName(b)[..|b|];
    }
  }

  /** The two assignments of the list loop for one column: cleaned in
      place, then its first answer; nothing when the column is absent. */
  function ListSteps(cols: seq<string>, col: string): seq<Step>
  {
    if col in cols then [Step(col, col, CleanList), Step(col, PrimaryName(col), Primary)] else []
  }

  /** The list loop over the columns `todo`. */
  function ListPlan(cols: seq<string>, todo: seq<string>): seq<Step>
  {
    if todo == [] then [] else ListPlan(cols, todo[..|todo| - 1]) + ListSteps(cols, todo[|todo| - 1])
  }

  // The cell functions of the assignments after the list loop.

  function IncomeCell(c: Cell): Cell
  {
    OptNumber(ParseIncome(c))
  }

  function AreaCell(c: Cell): Cell
  {
    OptNumber(ParseArea(c))
  }

  function BurdenCell(c: Cell): Cell
  {
    Str(RentBurden(c))
  }

  /** `.map(m)` as a cell function. */
  function Vocab(m: map<string, string>): Cell -> Cell
  {
    c => MapVocab(c, m)
  }

  /** `lambda x: 1 if isinstance(x, list) and reason in x else 0`. */
  function Flag(reason: string): Cell -> Cell
  {
    c => Number(ReasonFlag(c, reason) as real)
  }

  /** The seven assignments between the two loops. */
  const ScalarPlan: seq<Step> := [
    Step("rendimento-anual", "rendimento_numerical", IncomeCell),
    Step(PrimaryName("situacao-habitacional"), "housing_situation", Vocab(HousingMap)),
    Step(PrimaryName("satisfacao"), "satisfaction_level", Vocab(SatisfactionMap)),
    Step("area-util", "area_numerical", AreaCell),
    Step("percentagem-renda-paga", "rent_burden", BurdenCell),
    Step(PrimaryName("tipo-casa"), "house_type", Vocab(HouseTypeMap)),
    Step(PrimaryName("tipologia"), "bedroom_count", Vocab(BedroomMap))]

  function ReasonName(reason: string): string
  {
    "reason_" + reason
  }

  /** `df[f'reason_{reason}'] = df['insatisfacao-motivos'].apply(...)`. */
  function FlagStep(reason: string): Step
  {
    Step("insatisfacao-motivos", ReasonName(reason), Flag(reason))
  }

  /** The reason loop over `rs`. */
  function ReasonPlan(rs: seq<string>): seq<Step>
  {
    if rs == [] then [] else ReasonPlan(rs[..|rs| - 1]) + [FlagStep(rs[|rs| - 1])]
  }

  /** The last two assignments. */
  const TailPlan: seq<Step> := [
    Step(PrimaryName("situacao-profissional"), "employment_status", Vocab(EmploymentMap)),
    Step("educacao", "education_level", Vocab(EducationMap))]

  /** Every assignment `load_data` makes, for a table with columns `cols`. */
  function Plan(cols: seq<string>): seq<Step>
  {
    ListPlan(cols, ListColumns) + ScalarPlan + ReasonPlan(Reasons) + TailPlan
  }

  /** One normalised row. */
  function NormalizeRow(cols: seq<string>, r: Row): (out: Row)
    ensures forall key :: !Writes(Plan(cols), key) ==> Get(out, key) == Get(r, key)
  {
    RunKeepsUnwritten(r, Plan(cols));
    Run(r, Plan(cols))
  }

  /** The column list after normalisation. */
  function NormalizedColumns(cols: seq<string>): seq<string>
  {
    AddColumns(cols, Names(Plan(cols)))
  }

  /** The raw columns `load_data` reads without checking for them. */
  const RequiredColumns: seq<string> := [
    "situacao-habitacional", "tipo-casa", "tipologia", "situacao-profissional", "satisfacao",
    "insatisfacao-motivos", "rendimento-anual", "area-util", "percentagem-renda-paga", "educacao"]

  // ---------------------------------------------------------------------
  // What the list loop and the reason loop write

  /** The list columns are distinct and none ends in 'y', the last letter
      of every `_primary` name. */
  lemma ListColumnsShape()
    ensures Distinct(ListColumns)
    ensures forall x :: x in ListColumns ==> |x| > 0 && x[|x| - 1] != 'y'
  {
  }

  /** The list loop assigns only list columns and `_primary` names. */
  lemma {:induction false} ListPlanKeeps(cols: seq<string>, todo: seq<string>, key: string)
    requires key !in todo && |key| > 0 && key[|key| - 1] != 'y'
    ensures !Writes(ListPlan(cols, todo), key)
    decreases |todo|
  {
    if todo != [] {
      var front, x := todo[..|todo| - 1], todo[|todo| - 1];
      assert todo == front + [x];
      ListPlanKeeps(cols, front, key);
      var p := PrimaryName(x);
      assert p[|p| - 1] == 'y';
      WritesAppend(ListPlan(cols, front), ListSteps(cols, x), key);
    }
  }

  /** Two assignments in a row. */
  lemma RunTwo(r: Row, s1: Step, s2: Step)
    ensures Run(r, [s1, s2]) == ApplyStep(ApplyStep(r, s1), s2)
  {
    RunSnoc(r, [], s1);
    RunSnoc(r, [s1], s2);
    assert [] + [s1] == [s1];
    assert [s1] + [s2] == [s1, s2];
  }

  /** The assignments for column `c` clean it and fill its `_primary`
      column. */
  lemma ListStepsHere(r: Row, cols: seq<string>, c: string)
    requires c in cols && |c| > 0 && c[|c| - 1] != 'y'
    ensures Get(Run(r, ListSteps(cols, c)), c) == CleanList(Get(r, c))
    ensures Get(Run(r, ListSteps(cols, c)), PrimaryName(c)) == Primary(CleanList(Get(r, c)))
  {
    var pc := PrimaryName(c);
    assert pc[|pc| - 1] == 'y';
    RunTwo(r, Step(c, c, CleanList), Step(c, pc, Primary));
  }

  /** The assignments for column `x` leave every other column alone, its
      `_primary` column aside. */
  lemma ListStepsElsewhere(r: Row, cols: seq<string>, x: string, key: string)
    requires key != x && key != PrimaryName(x)
    ensures Get(Run(r, ListSteps(cols, x)), key) == Get(r, key)
  {
    if x in cols {
      RunTwo(r, Step(x, x, CleanList), Step(x, PrimaryName(x), Primary));
    }
  }

  lemma DistinctPrefix(xs: seq<string>, n: nat)
    requires Distinct(xs) && n <= |xs|
    ensures Distinct(xs[..n])
    ensures forall i :: 0 <= i < n ==> xs[i] !in xs[n..]
  {
    forall i | 0 <= i < n ensures xs[i] !in xs[n..] {
      forall j | 0 <= j < |xs[n..]| ensures xs[n..][j] != xs[i] {
        assert xs[n..][j] == xs[n + j];
      }
    }
  }

  /** The list loop reaching a column not assigned before cleans it. */
  lemma CleansLast(r: Row, before: seq<Step>, cols: seq<string>, c: string)
    requires !Writes(before, c) && c in cols && |c| > 0 && c[|c| - 1] != 'y'
    ensures Get(Run(r, before + ListSteps(cols, c)), c) == CleanList(Get(r, c))
    ensures Get(Run(r, before + ListSteps(cols, c)), PrimaryName(c)) == Primary(CleanList(Get(r, c)))
  {
    RunAppend(r, before, ListSteps(cols, c));
    RunUntouched(r, before, c);
    ListStepsHere(Run(r, before), cols, c);
  }

  /** The list loop moving on to another column leaves a cleaned column
      and its `_primary` column as they are. */
  lemma CleansEarlier(r: Row, before: seq<Step>, cols: seq<string>, x: string, c: string)
    requires x != c && |x| > 0 && x[|x| - 1] != 'y' && |c| > 0 && c[|c| - 1] != 'y'
    ensures Get(Run(r, before + ListSteps(cols, x)), c) == Get(Run(r, before), c)
    ensures Get(Run(r, before + ListSteps(cols, x)), PrimaryName(c)) == Get(Run(r, before), PrimaryName(c))
  {
    RunAppend(r, before, ListSteps(cols, x));
    var pc, px := PrimaryName(c), PrimaryName(x);
    assert pc[|pc| - 1] == 'y';
    assert px[|px| - 1] == 'y';
    PrimaryNameInjective(x, c);
    ListStepsElsewhere(Run(r, before), cols, x, c);
    ListStepsElsewhere(Run(r, before), cols, x, pc);
  }

  /** A list column present in the table ends up cleaned, and its
      `_primary` column holds its first answer, whatever the loop does to
      the other list columns. */
  lemma {:induction false} ListPlanCleans(cols: seq<string>, todo: seq<string>, r: Row, c: string)
    requires c in todo && c in cols
    requires Distinct(todo)
    requires forall x :: x in todo ==> |x| > 0 && x[|x| - 1] != 'y'
    ensures Get(Run(r, ListPlan(cols, todo)), c) == CleanList(Get(r, c))
    ensures Get(Run(r, ListPlan(cols, todo)), PrimaryName(c)) == Primary(CleanList(Get(r, c)))
    decreases |todo|
  {
    var n := |todo| - 1;
    var front, x := todo[..n], todo[n];
    DistinctPrefix(todo, n);
    assert todo == front + [x];
    if x == c {
      ListPlanKeeps(cols, front, c);
      CleansLast(r, ListPlan(cols, front), cols, c);
    } else {
      ListPlanCleans(cols, front, r, c);
      CleansEarlier(r, ListPlan(cols, front), cols, x, c);
    }
  }

  /** Every flag column is named "reason_...", so a column whose third
      letter is not the 'a' of "reason_" is not assigned by the reason loop. */
  lemma {:induction false} ReasonPlanKeeps(rs: seq<string>, key: string)
    requires |key| > 2 && key[2] != 'a'
    ensures !Writes(ReasonPlan(rs), key)
    decreases |rs|
  {
    if rs != [] {
      var front, x := rs[..|rs| - 1], rs[|rs| - 1];
      ReasonPlanKeeps(front, key);
      assert ReasonName(x)[2] == 'a';
      WritesAppend(ReasonPlan(front), [FlagStep(x)], key);
    }
  }

  lemma ReasonNameInjective(a: string, b: string)
    ensures ReasonName(a) == ReasonName(b) ==> a == b
  {
    if ReasonName(a) == ReasonName(b) {
      assert a == ReasonName(a)[7..];
      assert b == ReasonName(b)[7..];
    }
  }

  /** After the reason loop over a catalogue without repeats, each flag
      column says whether its reason is in the dissatisfaction list. */
  lemma {:induction false} ReasonPlanFlag(r: Row, rs: seq<string>, k: nat)
    requires k < |rs| && Distinct(rs)
    ensures Get(Run(r, ReasonPlan(rs)), ReasonName(rs[k])) ==
            Number(ReasonFlag(Get(r, "insatisfacao-motivos"), rs[k]) as real)
    decreases |rs|
  {
    var front, x := rs[..|rs| - 1], rs[|rs| - 1];
    RunSnoc(r, ReasonPlan(front), FlagStep(x));
    if k == |rs| - 1 {
      ReasonPlanKeeps(front, "insatisfacao-motivos");
      RunUntouched(r, ReasonPlan(front), "insatisfacao-motivos");
    } else {
      DistinctPrefix(rs, |rs| - 1);
      assert front[k] == rs[k];
      ReasonPlanFlag(r, front, k);
      ReasonNameInjective(x, rs[k]);
    }
  }

  // ---------------------------------------------------------------------
  // What each normalised column holds

  /** In a plan made of four parts, an assignment of the second part that
      no later assignment overrides and whose source no earlier assignment
      of its part writes gives its column `f` of the source as the first
      part left it. */
  lemma FieldOfPlan(r: Row, a: seq<Step>, b: seq<Step>, c: seq<Step>, d: seq<Step>, i: nat)
    requires i < |b|
    requires !Writes(b[..i], b[i].src)
    requires !Writes(b[i + 1..], b[i].name) && !Writes(c, b[i].name) && !Writes(d, b[i].name)
    ensures Get(Run(r, a + b + c + d), b[i].name) == b[i].f(Get(Run(r, a), b[i].src))
  {
    var rest := b[i + 1..] + c + d;
    assert b == b[..i] + [b[i]] + b[i + 1..];
    assert a + b + c + d == (a + b[..i]) + [b[i]] + rest;
    WritesAppend(b[i + 1..], c, b[i].name);
    WritesAppend(b[i + 1..] + c, d, b[i].name);
    RunWrite(r, a + b[..i], b[i], rest);
    RunAppend(r, a, b[..i]);
    RunUntouched(Run(r, a), b[..i], b[i].src);
  }

  /** Assignment `i` between the two loops is the last one to its column
      and reads a column the assignments before it leave alone. */
  predicate ScalarStepFree(i: nat)
    requires i < |ScalarPlan|
  {
    var s := ScalarPlan[i];
    !Writes(ScalarPlan[..i], s.src) && !Writes(ScalarPlan[i + 1..], s.name) &&
    !Writes(TailPlan, s.name) && |s.name| > 2 && s.name[2] != 'a'
  }

  /** Assignment `i` between the two loops gives its column `f` of its
      source as the list loop left it. */
  lemma ScalarField(cols: seq<string>, r: Row, i: nat)
    requires i < |ScalarPlan| && ScalarStepFree(i)
    ensures Get(NormalizeRow(cols, r), ScalarPlan[i].name) ==
            ScalarPlan[i].f(Get(Run(r, ListPlan(cols, ListColumns)), ScalarPlan[i].src))
  {
    ReasonPlanKeeps(Reasons, ScalarPlan[i].name);
    FieldOfPlan(r, ListPlan(cols, ListColumns), ScalarPlan, ReasonPlan(Reasons), TailPlan, i);
  }

  /** An assignment between the loops that reads a raw column sees the raw
      answer. */
  lemma ScalarFieldRaw(cols: seq<string>, r: Row, i: nat)
    requires i < |ScalarPlan| && ScalarStepFree(i)
    requires ScalarPlan[i].src !in ListColumns
    requires |ScalarPlan[i].src| > 0 && ScalarPlan[i].src[|ScalarPlan[i].src| - 1] != 'y'
    ensures Get(NormalizeRow(cols, r), ScalarPlan[i].name) == ScalarPlan[i].f(Get(r, ScalarPlan[i].src))
  {
    ScalarField(cols, r, i);
    ListPlanKeeps(cols, ListColumns, ScalarPlan[i].src);
    RunUntouched(r, ListPlan(cols, ListColumns), ScalarPlan[i].src);
  }

  /** An assignment between the loops that reads the `_primary` column of
      a present list column sees its first cleaned answer. */
  lemma ScalarFieldPrimary(cols: seq<string>, r: Row, i: nat, c: string)
    requires i < |ScalarPlan| && ScalarStepFree(i)
    requires ScalarPlan[i].src == PrimaryName(c) && c in ListColumns && c in cols
    ensures Get(NormalizeRow(cols, r), ScalarPlan[i].name) == ScalarPlan[i].f(Primary(CleanList(Get(r, c))))
  {
    ScalarField(cols, r, i);
    ListColumnsShape();
    ListPlanCleans(cols, ListColumns, r, c);
  }

  lemma IncomeStepFree()
    ensures ScalarStepFree(0) && "rendimento-anual" !in ListColumns
  {
  }

  lemma HousingStepFree()
    ensures ScalarStepFree(1) && "situacao-habitacional" in ListColumns
  {
  }

  lemma SatisfactionStepFree()
    ensures ScalarStepFree(2) && "satisfacao" in ListColumns
  {
  }

  lemma AreaStepFree()
    ensures ScalarStepFree(3) && "area-util" !in ListColumns
  {
  }

  lemma BurdenStepFree()
    ensures ScalarStepFree(4) && "percentagem-renda-paga" !in ListColumns
  {
  }

  lemma HouseTypeStepFree()
    ensures ScalarStepFree(5) && "tipo-casa" in ListColumns
  {
    var p := PrimaryName("tipo-casa");
    assert p[|p| - 1] == 'y';
  }

  lemma BedroomStepFree()
    ensures ScalarStepFree(6) && "tipologia" in ListColumns
  {
    var p := PrimaryName("tipologia");
    assert p[|p| - 1] == 'y';
  }

  /** `rendimento_numerical` is the parsed income bracket of the raw answer. */
  lemma NormalizedIncome(cols: seq<string>, r: Row)
    ensures Get(NormalizeRow(cols, r), "rendimento_numerical") ==
            OptNumber(ParseIncome(Get(r, "rendimento-anual")))
  {
    IncomeStepFree();
    ScalarFieldRaw(cols, r, 0);
  }

  /** `area_numerical` is the parsed floor area of the raw answer. */
  lemma NormalizedArea(cols: seq<string>, r: Row)
    ensures Get(NormalizeRow(cols, r), "area_numerical") == OptNumber(ParseArea(Get(r, "area-util")))
  {
    AreaStepFree();
    ScalarFieldRaw(cols, r, 3);
  }

  /** `rent_burden` is the bucket of the raw rent share. */
  lemma NormalizedBurden(cols: seq<string>, r: Row)
    ensures Get(NormalizeRow(cols, r), "rent_burden") == Str(RentBurden(Get(r, "percentagem-renda-paga")))
  {
    BurdenStepFree();
    ScalarFieldRaw(cols, r, 4);
  }

  /** `housing_situation` is the label of the first cleaned answer. */
  lemma NormalizedHousing(cols: seq<string>, r: Row)
    requires "situacao-habitacional" in cols
    ensures Get(NormalizeRow(cols, r), "housing_situation") ==
            MapVocab(Primary(CleanList(Get(r, "situacao-habitacional"))), HousingMap)
  {
    HousingStepFree();
    ScalarFieldPrimary(cols, r, 1, "situacao-habitacional");
  }

  /** `satisfaction_level` is the label of the first cleaned answer. */
  lemma NormalizedSatisfaction(cols: seq<string>, r: Row)
    requires "satisfacao" in cols
    ensures Get(NormalizeRow(cols, r), "satisfaction_level") ==
            MapVocab(Primary(CleanList(Get(r, "satisfacao"))), SatisfactionMap)
  {
    SatisfactionStepFree();
    ScalarFieldPrimary(cols, r, 2, "satisfacao");
  }

  /** `house_type` is the label of the first cleaned answer. */
  lemma NormalizedHouseType(cols: seq<string>, r: Row)
    requires "tipo-casa" in cols
    ensures Get(NormalizeRow(cols, r), "house_type") ==
            MapVocab(Primary(CleanList(Get(r, "tipo-casa"))), HouseTypeMap)
  {
    HouseTypeStepFree();
    ScalarFieldPrimary(cols, r, 5, "tipo-casa");
  }

  /** `bedroom_count` is the label of the first cleaned answer. */
  lemma NormalizedBedrooms(cols: seq<string>, r: Row)
    requires "tipologia" in cols
    ensures Get(NormalizeRow(cols, r), "bedroom_count") ==
            MapVocab(Primary(CleanList(Get(r, "tipologia"))), BedroomMap)
  {
    BedroomStepFree();
    ScalarFieldPrimary(cols, r, 6, "tipologia");
  }

  /** In a plan made of four parts, an assignment of the last part that no
      later assignment overrides and whose source no assignment after the
      first part and before it writes gives its column `f` of the source as
      the first part left it. */
  lemma FieldOfLastPart(r: Row, a: seq<Step>, b: seq<Step>, c: seq<Step>, d: seq<Step>, i: nat)
    requires i < |d|
    requires !Writes(b, d[i].src) && !Writes(c, d[i].src) && !Writes(d[..i], d[i].src)
    requires !Writes(d[i + 1..], d[i].name)
    ensures Get(Run(r, a + b + c + d), d[i].name) == d[i].f(Get(Run(r, a), d[i].src))
  {
    var mid := b + c + d[..i];
    assert d == d[..i] + [d[i]] + d[i + 1..];
    assert a + b + c + d == (a + mid) + [d[i]] + d[i + 1..];
    WritesAppend(b, c, d[i].src);
    WritesAppend(b + c, d[..i], d[i].src);
    RunWrite(r, a + mid, d[i], d[i + 1..]);
    RunAppend(r, a, mid);
    RunUntouched(Run(r, a), mid, d[i].src);
  }

  /** Assignment `i` after the reason loop is the last one to its column
      and reads a column that no assignment after the list loop writes. */
  predicate TailStepFree(i: nat)
    requires i < |TailPlan|
  {
    var s := TailPlan[i];
    !Writes(ScalarPlan, s.src) && !Writes(TailPlan[..i], s.src) && !Writes(TailPlan[i + 1..], s.name) &&
    |s.src| > 2 && s.src[2] != 'a'
  }

  lemma TailField(cols: seq<string>, r: Row, i: nat)
    requires i < |TailPlan| && TailStepFree(i)
    ensures Get(NormalizeRow(cols, r), TailPlan[i].name) ==
            TailPlan[i].f(Get(Run(r, ListPlan(cols, ListColumns)), TailPlan[i].src))
  {
    ReasonPlanKeeps(Reasons, TailPlan[i].src);
    FieldOfLastPart(r, ListPlan(cols, ListColumns), ScalarPlan, ReasonPlan(Reasons), TailPlan, i);
  }

  lemma EmploymentStepFree()
    ensures TailStepFree(0) && "situacao-profissional" in ListColumns
  {
  }

  lemma EducationStepFree()
    ensures TailStepFree(1) && "educacao" !in ListColumns
  {
  }

  /** `employment_status` is the label of the first cleaned answer. */
  lemma NormalizedEmployment(cols: seq<string>, r: Row)
    requires "situacao-profissional" in cols
    ensures Get(NormalizeRow(cols, r), "employment_status") ==
            MapVocab(Primary(CleanList(Get(r, "situacao-profissional"))), EmploymentMap)
  {
    EmploymentStepFree();
    TailField(cols, r, 0);
    ListColumnsShape();
    ListPlanCleans(cols, ListColumns, r, "situacao-profissional");
  }

  /** `education_level` is the label of the raw answer, which is not a
      list column. */
  lemma NormalizedEducation(cols: seq<string>, r: Row)
    ensures Get(NormalizeRow(cols, r), "education_level") == MapVocab(Get(r, "educacao"), EducationMap)
  {
    EducationStepFree();
    TailField(cols, r, 1);
    ListPlanKeeps(cols, ListColumns, "educacao");
    RunUntouched(r, ListPlan(cols, ListColumns), "educacao");
  }

  /** In a plan made of four parts, a column the third part computes from a
      column the second part leaves alone, and that the fourth part leaves
      alone, is what the third part makes of the first part's result. */
  lemma ThirdPart(r: Row, a: seq<Step>, b: seq<Step>, c: seq<Step>, d: seq<Step>, key: string)
    requires !Writes(d, key)
    ensures Get(Run(r, a + b + c + d), key) == Get(Run(Run(Run(r, a), b), c), key)
  {
    RunAppend(r, a + b + c, d);
    RunUntouched(Run(r, a + b + c), d, key);
    RunAppend(r, a + b, c);
    RunAppend(r, a, b);
  }

  lemma ReasonSourceFree()
    ensures !Writes(ScalarPlan, "insatisfacao-motivos") && "insatisfacao-motivos" in ListColumns
    ensures Distinct(Reasons)
    ensures forall k :: 0 <= k < |TailPlan| ==> TailPlan[k].name[2] != 'a'
  {
  }

  /** Flag `reason_x` is 1 exactly when the cleaned dissatisfaction list
      contains `x`, for each of the ten reasons. */
  lemma NormalizedReasonFlag(cols: seq<string>, r: Row, k: nat)
    requires "insatisfacao-motivos" in cols
    requires k < |Reasons|
    ensures Get(NormalizeRow(cols, r), ReasonName(Reasons[k])) ==
            Number(ReasonFlag(CleanList(Get(r, "insatisfacao-motivos")), Reasons[k]) as real)
  {
    var L := ListPlan(cols, ListColumns);
    var name := ReasonName(Reasons[k]);
    ReasonSourceFree();
    assert name[2] == 'a';
    assert !Writes(TailPlan, name);
    ThirdPart(r, L, ScalarPlan, ReasonPlan(Reasons), TailPlan, name);
    ReasonPlanFlag(Run(Run(r, L), ScalarPlan), Reasons, k);
    RunUntouched(Run(r, L), ScalarPlan, "insatisfacao-motivos");
    ListColumnsShape();
    ListPlanCleans(cols, ListColumns, r, "insatisfacao-motivos");
  }

  /** The housing situation is missing or one of the three English labels. */
  lemma HousingSituationRange(cols: seq<string>, r: Row)
    requires "situacao-habitacional" in cols
    ensures var h := Get(NormalizeRow(cols, r), "housing_situation");
      h == Missing || h == Str("Renting") || h == Str("Owned") || h == Str("Living with others")
  {
    NormalizedHousing(cols, r);
    HousingLabels(Primary(CleanList(Get(r, "situacao-habitacional"))));
  }

  /** A list column keeps its cleaned list when no assignment after the
      list loop writes it. */
  lemma ListColumnKept(cols: seq<string>, r: Row, c: string)
    requires c in ListColumns && c in cols
    requires !Writes(ScalarPlan, c) && !Writes(TailPlan, c) && |c| > 2 && c[2] != 'a'
    ensures Get(NormalizeRow(cols, r), c) == CleanList(Get(r, c))
  {
    var L := ListPlan(cols, ListColumns);
    ListColumnsShape();
    ListPlanCleans(cols, ListColumns, r, c);
    ReasonPlanKeeps(Reasons, c);
    ThirdPart(r, L, ScalarPlan, ReasonPlan(Reasons), TailPlan, c);
    RunUntouched(Run(Run(r, L), ScalarPlan), ReasonPlan(Reasons), c);
    RunUntouched(Run(r, L), ScalarPlan, c);
  }

  lemma SatisfactionAnswerFree()
    ensures !Writes(ScalarPlan, "satisfacao") && !Writes(TailPlan, "satisfacao")
    ensures "satisfacao" in ListColumns
  {
  }

  /** The satisfaction answer column holds its cleaned list. */
  lemma NormalizedSatisfactionAnswer(cols: seq<string>, r: Row)
    requires "satisfacao" in cols
    ensures Get(NormalizeRow(cols, r), "satisfacao") == CleanList(Get(r, "satisfacao"))
  {
    SatisfactionAnswerFree();
    ListColumnKept(cols, r, "satisfacao");
  }
}
