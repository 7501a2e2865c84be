/** The exploratory analysis tab: the option lists of the six filters,
    the filter chain, the choice of categorical columns, and the strongest
    correlations among the selected numeric columns. */
module Explore {
  import opened Text
  import opened Frame
  import opened Normalize
  import opened Pipeline
  import opened Loading

  // ---------------------------------------------------------------------
  // Python's order on strings

  /** `a < b` on Python strings: code point by code point, a proper prefix
      first. */
  predicate Less(a: string, b: string)
    decreases |a|
  {
    if a == [] then b != []
    else if b == [] then false
    else if a[0] != b[0] then a[0] < b[0]
    else Less(a[1..], b[1..])
  }

  lemma {:induction false} LessIrreflexive(a: string)
    ensures !Less(a, a)
    decreases |a|
  {
    if a != [] {
      LessIrreflexive(a[1..]);
    }
  }

  lemma {:induction false} LessTransitive(a: string, b: string, c: string)
    requires Less(a, b) && Less(b, c)
    ensures Less(a, c)
    decreases |a|
  {
    if a != [] && a[0] == b[0] && b[0] == c[0] {
      LessTransitive(a[1..], b[1..], c[1..]);
    }
  }

  /** Two different strings are ordered one way or the other, never both. */
  lemma {:induction false} LessTotal(a: string, b: string)
    ensures a != b ==> (Less(a, b) <==> !Less(b, a))
    decreases |a|
  {
    if a != [] && b != [] && a[0] == b[0] {
      LessTotal(a[1..], b[1..]);
      assert a == [a[0]] + a[1..] && b == [b[0]] + b[1..];
    }
  }

  predicate StrictlySorted(s: seq<string>)
  {
    forall i, j :: 0 <= i < j < |s| ==> Less(s[i], s[j])
  }

  lemma ConsSorted(h: string, t: seq<string>)
    requires StrictlySorted(t)
    requires forall y :: y in t ==> Less(h, y)
    ensures StrictlySorted([h] + t)
  {
    var s := [h] + t;
    forall i, j | 0 <= i < j < |s| ensures Less(s[i], s[j]) {
      if i > 0 {
        assert s[i] == t[i - 1] && s[j] == t[j - 1];
      } else {
        assert s[j] == t[j - 1];
      }
    }
  }

  /** `x` put into a strictly sorted list, unless already there. */
  function Insert(x: string, s: seq<string>): (r: seq<string>)
    requires StrictlySorted(s)
    ensures StrictlySorted(r)
    ensures forall y :: y in r <==> y == x || y in s
  {
    if s == [] then [x]
    else if x == s[0] then s
    else if Less(x, s[0]) then
      forall y | y in s ensures Less(x, y) {
        if y != s[0] {
          var j :| 0 <= j < |s| && s[j] == y;
          LessTransitive(x, s[0], y);
        }
      }
      ConsSorted(x, s);
      [x] + s
    else
      var rest := Insert(x, s[1..]);
      LessTotal(x, s[0]);
      forall y | y in rest ensures Less(s[0], y) {
        if y != x {
          var j :| 0 <= j < |s[1..]| && s[1..][j] == y;
          assert s[j + 1] == y;
        }
      }
      ConsSorted(s[0], rest);
      assert s == [s[0]] + s[1..];
      [s[0]] + rest
  }

  /** `sorted(column.dropna().unique())` of a text column. */
  function SortedUnique(cells: seq<Cell>): (r: seq<string>)
    ensures StrictlySorted(r)
    ensures forall v :: v in r <==> Str(v) in cells
  {
    if cells == [] then []
    else
      var rest := SortedUnique(cells[1..]);
      assert cells == [cells[0]] + cells[1..];
      if cells[0].Str? then Insert(cells[0].s, rest) else rest
  }

  /** Two strictly sorted lists with the same members are the same list. */
  lemma {:induction false} SortedUniqueness(a: seq<string>, b: seq<string>)
    requires StrictlySorted(a) && StrictlySorted(b)
    requires forall v :: v in a <==> v in b
    ensures a == b
    decreases |a|
  {
    assert a != [] ==> a[0] in b;
    assert b != [] ==> b[0] in a;
    if a != [] && b != [] {
      if a[0] != b[0] {
        assert a[0] in a && b[0] in b;
        var i :| 0 <= i < |b| && b[i] == a[0];
        var j :| 0 <= j < |a| && a[j] == b[0];
        LessIrreflexive(a[0]);
        LessIrreflexive(b[0]);
        assert Less(b[0], a[0]) && Less(a[0], b[0]);
        LessTransitive(a[0], b[0], a[0]);
      }
      forall v ensures v in a[1..] <==> v in b[1..] {
        if v in a[1..] {
          var i :| 0 <= i < |a[1..]| && a[1..][i] == v;
          assert Less(a[0], v);
          if v == b[0] {
            LessIrreflexive(v);
          }
          assert v in b;
          assert b == [b[0]] + b[1..];
        }
        if v in b[1..] {
          var i :| 0 <= i < |b[1..]| && b[1..][i] == v;
          assert Less(b[0], v);
          if v == a[0] {
            LessIrreflexive(v);
          }
          assert v in a;
          assert a == [a[0]] + a[1..];
        }
      }
      SortedUniqueness(a[1..], b[1..]);
      assert a == [a[0]] + a[1..] && b == [b[0]] + b[1..];
    }
  }

  /** A column's values, row by row. */
  function Column(rows: seq<Row>, col: string): (cs: seq<Cell>)
    ensures |cs| == |rows|
    ensures forall i :: 0 <= i < |rows| ==> cs[i] == Get(rows[i], col)
  {
    seq(|rows|, i requires 0 <= i < |rows| => Get(rows[i], col))
  }

  /** A filter's options: "All", then every text value of the column once,
      in Python's string order. */
  function OptionList(rows: seq<Row>, col: string): (opts: seq<string>)
    ensures |opts| > 0 && opts[0] == "All"
    ensures StrictlySorted(opts[1..])
    ensures forall v :: v in opts[1..] <==> exists i :: 0 <= i < |rows| && Get(rows[i], col) == Str(v)
  {
    var vs := SortedUnique(Column(rows, col));
    assert (["All"] + vs)[1..] == vs;
    ["All"] + vs
  }

  /** The options depend only on which values occur, not on the order or
      repetition of the rows. */
  lemma OptionsIgnoreRowOrder(rows: seq<Row>, others: seq<Row>, col: string)
    requires forall x :: x in rows <==> x in others
    ensures OptionList(rows, col) == OptionList(others, col)
  {
    var a, b := OptionList(rows, col), OptionList(others, col);
    forall v ensures v in a[1..] <==> v in b[1..] {
      if v in a[1..] {
        var i :| 0 <= i < |rows| && Get(rows[i], col) == Str(v);
        assert rows[i] in rows;
        var j :| 0 <= j < |others| && others[j] == rows[i];
      }
      if v in b[1..] {
        var j :| 0 <= j < |others| && Get(others[j], col) == Str(v);
        assert others[j] in others;
        var i :| 0 <= i < |rows| && rows[i] == others[j];
      }
    }
    SortedUniqueness(a[1..], b[1..]);
    assert a == [a[0]] + a[1..] && b == [b[0]] + b[1..];
  }

  // ---------------------------------------------------------------------
  // The filter chain

  /** One selectbox: a column and the option chosen for it. */
  datatype Filter = Filter(column: string, selected: string)

  /** The six choices, in the order the chain applies them. */
  datatype Selection = Selection(housing: string, district: string, income: string,
                                 satisfaction: string, houseType: string, education: string)

  function Filters(sel: Selection): seq<Filter>
  {
    [Filter("housing_situation", sel.housing), Filter("distrito", sel.district),
     Filter("rendimento_clean", sel.income), Filter("satisfaction_level", sel.satisfaction),
     Filter("house_type", sel.houseType), Filter("education_level", sel.education)]
  }

  /** A filter narrows the table only when its column exists and its
      choice is not "All". */
  predicate Active(cols: seq<string>, f: Filter)
  {
    f.column in cols && f.selected != "All"
  }

  function Matching(col: string, v: string): Row -> bool
  {
    r => Get(r, col) == Str(v)
  }

  /** One step of the chain. */
  function FilterStep(rows: seq<Row>, cols: seq<string>, f: Filter): (r: seq<Row>)
    ensures !Active(cols, f) ==> r == rows
    ensures forall x :: x in r <==> x in rows && (Active(cols, f) ==> Get(x, f.column) == Str(f.selected))
    ensures SubsequenceOf(r, rows)
  {
    SubsequenceRefl(rows);
    if Active(cols, f) then Select(rows, Matching(f.column, f.selected)) else rows
  }

  /** Two steps of the chain give the same table in either order. */
  lemma FilterStepsCommute(rows: seq<Row>, cols: seq<string>, f: Filter, g: Filter)
    ensures FilterStep(FilterStep(rows, cols, f), cols, g) == FilterStep(FilterStep(rows, cols, g), cols, f)
  {
    if Active(cols, f) && Active(cols, g) {
      SelectCommutes(rows, Matching(f.column, f.selected), Matching(g.column, g.selected));
    }
  }

  /** A row passes every active filter of `fs`. */
  predicate PassesAll(cols: seq<string>, fs: seq<Filter>, r: Row)
  {
    forall k :: 0 <= k < |fs| && Active(cols, fs[k]) ==> Get(r, fs[k].column) == Str(fs[k].selected)
  }

  function PassesFn(cols: seq<string>, fs: seq<Filter>): Row -> bool
  {
    r => PassesAll(cols, fs, r)
  }

  /** Applying one more filter to the rows passing `fs` leaves the rows
      passing `fs` and it. */
  lemma ChainStep(rows: seq<Row>, cols: seq<string>, fs: seq<Filter>, f: Filter)
    ensures FilterStep(Select(rows, PassesFn(cols, fs)), cols, f) == Select(rows, PassesFn(cols, fs + [f]))
  {
    var both := fs + [f];
    forall x ensures PassesAll(cols, both, x) == (PassesAll(cols, fs, x) && (!Active(cols, f) || Get(x, f.column) == Str(f.selected))) {
      assert both[|fs|] == f;
      assert forall k :: 0 <= k < |fs| ==> both[k] == fs[k];
    }
    if Active(cols, f) {
      SelectSelect(rows, PassesFn(cols, fs), Matching(f.column, f.selected), PassesFn(cols, both));
    } else {
      SelectExt(rows, PassesFn(cols, fs), PassesFn(cols, both));
    }
  }

  /** The rows passing the same filters, in whatever order they are
      listed, are the same rows. */
  lemma FilterOrderIrrelevant(rows: seq<Row>, cols: seq<string>, fs: seq<Filter>, gs: seq<Filter>)
    requires forall f :: f in fs <==> f in gs
    ensures Select(rows, PassesFn(cols, fs)) == Select(rows, PassesFn(cols, gs))
  {
    forall x ensures PassesAll(cols, fs, x) == PassesAll(cols, gs, x) {
      if PassesAll(cols, fs, x) {
        forall k | 0 <= k < |gs| && Active(cols, gs[k]) ensures Get(x, gs[k].column) == Str(gs[k].selected) {
          assert gs[k] in gs;
          var m :| 0 <= m < |fs| && fs[m] == gs[k];
        }
      }
      if PassesAll(cols, gs, x) {
        forall k | 0 <= k < |fs| && Active(cols, fs[k]) ensures Get(x, fs[k].column) == Str(fs[k].selected) {
          assert fs[k] in fs;
          var m :| 0 <= m < |gs| && gs[m] == fs[k];
        }
      }
    }
    SelectExt(rows, PassesFn(cols, fs), PassesFn(cols, gs));
  }

  /** `if col in df.columns and choice != "All": filtered_df =
      filtered_df[filtered_df[col] == choice]`, on a table holding the rows
      that pass the filters `done`. */
  method Narrow(filtered: seq<Row>, ghost rows: seq<Row>, cols: seq<string>, ghost done: seq<Filter>, f: Filter)
    returns (next: seq<Row>)
    requires filtered == Select(rows, PassesFn(cols, done))
    ensures next == Select(rows, PassesFn(cols, done + [f]))
  {
    next := filtered;
    if f.column in cols && f.selected != "All" {
      next := Select(filtered, Matching(f.column, f.selected));
    }
    ChainStep(rows, cols, done, f);
  }

  lemma Prefixes(f0: Filter, f1: Filter, f2: Filter, f3: Filter, f4: Filter, f5: Filter)
    ensures [] + [f0] == [f0] && [f0] + [f1] == [f0, f1] && [f0, f1] + [f2] == [f0, f1, f2]
    ensures [f0, f1, f2] + [f3] == [f0, f1, f2, f3] && [f0, f1, f2, f3] + [f4] == [f0, f1, f2, f3, f4]
    ensures [f0, f1, f2, f3, f4] + [f5] == [f0, f1, f2, f3, f4, f5]
  {
  }

  /** `filtered_df`: the six filters applied in turn. The result is the
      rows passing every active filter, in their original order. */
  method FilterTable(rows: seq<Row>, cols: seq<string>, sel: Selection) returns (filtered: seq<Row>)
    ensures filtered == Select(rows, PassesFn(cols, Filters(sel)))
    ensures forall x :: x in filtered <==> x in rows && PassesAll(cols, Filters(sel), x)
    ensures SubsequenceOf(filtered, rows) && |filtered| <= |rows|
  {
    var f0, f1, f2 := Filter("housing_situation", sel.housing), Filter("distrito", sel.district),
                      Filter("rendimento_clean", sel.income);
    var f3, f4, f5 := Filter("satisfaction_level", sel.satisfaction), Filter("house_type", sel.houseType),
                      Filter("education_level", sel.education);
    SelectAll(rows, PassesFn(cols, []));
    Prefixes(f0, f1, f2, f3, f4, f5);
    filtered := Narrow(rows, rows, cols, [], f0);
    filtered := Narrow(filtered, rows, cols, [f0], f1);
    filtered := Narrow(filtered, rows, cols, [f0, f1], f2);
    filtered := Narrow(filtered, rows, cols, [f0, f1, f2], f3);
    filtered := Narrow(filtered, rows, cols, [f0, f1, f2, f3], f4);
    filtered := Narrow(filtered, rows, cols, [f0, f1, f2, f3, f4], f5);
  }

  /** The loader names `rendimento_clean` nowhere among the columns it
      adds. */
  lemma IncomeCleanFree()
    ensures !Writes(ScalarPlan, "rendimento_clean") && !Writes(TailPlan, "rendimento_clean")
    ensures "rendimento_clean" !in ListColumns
  {
  }

  /** `load_data` never creates `rendimento_clean`, so on a loaded table
      whose raw columns lack it the income filter does nothing. */
  lemma IncomeFilterInactive(raw: seq<string>, choice: string)
    requires "rendimento_clean" !in raw
    ensures "rendimento_clean" !in NormalizedColumns(raw)
    ensures !Active(NormalizedColumns(raw), Filter("rendimento_clean", choice))
  {
    var key := "rendimento_clean";
    IncomeCleanFree();
    ListPlanKeeps(raw, ListColumns, key);
    ReasonPlanKeeps(Reasons, key);
    var L := ListPlan(raw, ListColumns);
    WritesAppend(L, ScalarPlan, key);
    WritesAppend(L + ScalarPlan, ReasonPlan(Reasons), key);
    WritesAppend(L + ScalarPlan + ReasonPlan(Reasons), TailPlan, key);
    NamesWrites(Plan(raw), key);
  }

  // ---------------------------------------------------------------------
  // Categorical columns

  /** A cell whose text form shows a `[`: a list, or text holding one. */
  predicate BracketCell(c: Cell)
  {
    c.Tokens? || (c.Str? && '[' in c.s)
  }

  predicate AnyBracket(rows: seq<Row>, col: string)
  {
    exists i :: 0 <= i < |rows| && BracketCell(Get(rows[i], col))
  }

  /** The cleaned columns offered even when they were dropped or not typed
      as text. */
  const CleanColumnNames: seq<string> :=
    ["housing_situation", "satisfaction_level", "house_type", "education_level",
     "employment_status", "rendimento_clean", "bedroom_count"]

  lemma {:induction false} WhereDistinct(order: seq<string>, keep: string -> bool)
    requires Distinct(order)
    ensures Distinct(Where(order, keep))
    decreases |order|
  {
    if order != [] {
      var rest := Where(order[1..], keep);
      assert Distinct(order[1..]) by {
        forall i, j | 0 <= i < j < |order[1..]| ensures order[1..][i] != order[1..][j] {
          assert order[1..][i] == order[i + 1] && order[1..][j] == order[j + 1];
        }
      }
      WhereDistinct(order[1..], keep);
      if keep(order[0]) {
        assert order[0] !in order[1..] by {
          forall i | 0 <= i < |order[1..]| ensures order[1..][i] != order[0] {
            assert order[1..][i] == order[i + 1];
          }
        }
        assert order[0] !in rest;
        var s := [order[0]] + rest;
        forall i, j | 0 <= i < j < |s| ensures s[i] != s[j] {
          assert s[j] == rest[j - 1];
          if i > 0 {
            assert s[i] == rest[i - 1];
          }
        }
      }
    }
  }

  /** `categorical_cols`: the text and category columns showing no `[` in
      any row, followed by each cleaned column the table has and the list
      lacks, each added once. */
  method CategoricalColumns(typed: seq<string>, rows: seq<Row>, cols: seq<string>) returns (result: seq<string>)
    ensures |result| >= |Where(typed, c => !AnyBracket(rows, c))|
    ensures result[..|Where(typed, c => !AnyBracket(rows, c))|] ==
              Where(typed, c => !AnyBracket(rows, c))
    ensures forall c :: c in result <==>
              (c in typed && !AnyBracket(rows, c)) || (c in CleanColumnNames && c in cols)
    ensures Distinct(typed) ==> Distinct(result)
  {
    var kept := Where(typed, c => !AnyBracket(rows, c));
    ghost var distinctStart := Distinct(typed);
    if distinctStart {
      WhereDistinct(typed, c => !AnyBracket(rows, c));
    }
    result := kept;
    for k := 0 to |CleanColumnNames|
      invariant |result| >= |kept| && result[..|kept|] == kept
      invariant forall c :: c in result <==> c in kept || (c in CleanColumnNames[..k] && c in cols)
      invariant distinctStart ==> Distinct(result)
    {
      var col := CleanColumnNames[k];
      assert CleanColumnNames[..k + 1] == CleanColumnNames[..k] + [col];
      if col in cols && col !in result {
        var before := result;
        result := result + [col];
        assert result[..|kept|] == before[..|kept|];
      }
    }
    assert CleanColumnNames[..|CleanColumnNames|] == CleanColumnNames;
  }

  // ---------------------------------------------------------------------
  // Correlation pairs

  /** The index pairs (i, j) with i < j < n in the loops' order: all
      pairs of row 0, then of row 1, and so on. */
  function RowPairs(i: nat, j: nat): (ps: seq<(nat, nat)>)
    ensures |ps| == if j > i then j - i - 1 else 0
    decreases j
  {
    if j <= i + 1 then [] else RowPairs(i, j - 1) + [(i, j - 1)]
  }

  function PairsBefore(k: nat, n: nat): seq<(nat, nat)>
  {
    if k == 0 then [] else PairsBefore(k - 1, n) + RowPairs(k - 1, n)
  }

  function AllPairs(n: nat): seq<(nat, nat)>
  {
    PairsBefore(n, n)
  }

  predicate PairBefore(p: (nat, nat), q: (nat, nat))
  {
    p.0 < q.0 || (p.0 == q.0 && p.1 < q.1)
  }

  predicate PairsSorted(ps: seq<(nat, nat)>)
  {
    forall a, b :: 0 <= a < b < |ps| ==> PairBefore(ps[a], ps[b])
  }

  lemma {:induction false} RowPairsShape(i: nat, j: nat)
    ensures forall p :: p in RowPairs(i, j) <==> p.0 == i && i < p.1 < j
    ensures PairsSorted(RowPairs(i, j))
    decreases j
  {
    if j > i + 1 {
      RowPairsShape(i, j - 1);
      var front := RowPairs(i, j - 1);
      var ps := front + [(i, j - 1)];
      forall a, b | 0 <= a < b < |ps| ensures PairBefore(ps[a], ps[b]) {
        assert ps[a] == front[a];
        if b < |front| {
          assert ps[b] == front[b];
        }
      }
    }
  }

  lemma {:induction false} PairsBeforeShape(k: nat, n: nat)
    ensures forall p :: p in PairsBefore(k, n) <==> p.0 < k && p.0 < p.1 < n
    ensures PairsSorted(PairsBefore(k, n))
  {
    if k > 0 {
      PairsBeforeShape(k - 1, n);
      RowPairsShape(k - 1, n);
      var front, row := PairsBefore(k - 1, n), RowPairs(k - 1, n);
      var ps := front + row;
      forall a, b | 0 <= a < b < |ps| ensures PairBefore(ps[a], ps[b]) {
        if b < |front| {
          assert ps[a] == front[a] && ps[b] == front[b];
        } else if a >= |front| {
          assert ps[a] == row[a - |front|] && ps[b] == row[b - |front|];
        } else {
          assert ps[a] == front[a] && ps[b] == row[b - |front|];
          assert ps[a] in front && ps[b] in row;
        }
      }
    }
  }

  lemma CountStep(m: int, n: int)
    ensures m * (2 * n - m - 1) + 2 * (n - m - 1) == (m + 1) * (2 * n - m - 2)
  {
    assert m * (2 * n - m - 1) == 2 * m * n - m * m - m;
    assert (m + 1) * (2 * n - m - 2) == 2 * m * n - m * m - 3 * m + 2 * n - 2;
  }

  lemma {:induction false} PairsBeforeLength(k: nat, n: nat)
    requires k <= n
    ensures 2 * |PairsBefore(k, n)| == k * (2 * n - k - 1)
  {
    if k > 0 {
      PairsBeforeLength(k - 1, n);
      CountStep(k - 1, n);
    }
  }

  /** The loops visit every pair i < j < n, each exactly once, n(n-1)/2
      pairs in all. */
  lemma AllPairsExactlyOnce(n: nat)
    ensures forall p :: p in AllPairs(n) <==> p.0 < p.1 < n
    ensures forall a, b :: 0 <= a < b < |AllPairs(n)| ==> AllPairs(n)[a] != AllPairs(n)[b]
    ensures 2 * |AllPairs(n)| == n * (n - 1)
  {
    PairsBeforeShape(n, n);
    PairsBeforeLength(n, n);
  }

  /** One entry of `corr_pairs`; `None` is NaN, which `.corr()` gives for
      a column that is constant over the rows it shares with the other. */
  datatype Correlation = Correlation(first: string, second: string, value: Option<real>)

  /** `pairs` lists, entry by entry, the column names and the matrix value
      at the index pairs `ps`. */
  predicate Describes(pairs: seq<Correlation>, ps: seq<(nat, nat)>, names: seq<string>, matrix: seq<seq<Option<real>>>)
  {
    |pairs| == |ps| &&
    forall k :: 0 <= k < |ps| ==>
      ps[k].0 < |names| && ps[k].1 < |names| && ps[k].0 < |matrix| && ps[k].1 < |matrix[ps[k].0]| &&
      pairs[k] == Correlation(names[ps[k].0], names[ps[k].1], matrix[ps[k].0][ps[k].1])
  }

  predicate IsSquare(matrix: seq<seq<Option<real>>>, n: nat)
  {
    |matrix| == n && forall i :: 0 <= i < n ==> |matrix[i]| == n
  }

  /** `corr_pairs`: for i < j, in the loops' order, the two column names
      and the matrix entry at (i, j). */
  method CorrelationPairs(names: seq<string>, matrix: seq<seq<Option<real>>>) returns (pairs: seq<Correlation>)
    requires IsSquare(matrix, |names|)
    ensures Describes(pairs, AllPairs(|names|), names, matrix)
  {
    var n := |names|;
    pairs := [];
    for i := 0 to n
      invariant Describes(pairs, PairsBefore(i, n), names, matrix)
    {
      ghost var done := PairsBefore(i, n);
      for j := i + 1 to n
        invariant Describes(pairs, done + RowPairs(i, j), names, matrix)
      {
        ghost var ps := done + RowPairs(i, j);
        assert ps + [(i, j)] == done + RowPairs(i, j + 1);
        pairs := pairs + [Correlation(names[i], names[j], matrix[i][j])];
        assert Describes(pairs, ps + [(i, j)], names, matrix) by {
          forall k | 0 <= k < |ps| + 1
            ensures (ps + [(i, j)])[k].0 < n && (ps + [(i, j)])[k].1 < n
          {
          }
        }
      }
      assert done + RowPairs(i, n) == PairsBefore(i + 1, n);
    }
  }

  function Abs(x: real): real
  {
    if x < 0.0 then -x else x
  }

  /** The sort key of the corrected ordering: the size of the correlation,
      with NaN below every number. */
  function StrengthKey(v: Option<real>): (k: real)
    ensures v.Some? ==> k >= 0.0
    ensures v.None? ==> k < 0.0
  {
    if v.None? then -1.0 else Abs(v.value)
  }

  /** Strongest first: no entry is weaker than a later one. */
  predicate ByStrength(ps: seq<Correlation>)
  {
    forall a, b :: 0 <= a < b < |ps| ==> StrengthKey(ps[a].value) >= StrengthKey(ps[b].value)
  }

  lemma ConsByStrength(h: Correlation, t: seq<Correlation>)
    requires ByStrength(t)
    requires forall y :: y in t ==> StrengthKey(h.value) >= StrengthKey(y.value)
    ensures ByStrength([h] + t)
  {
    var r := [h] + t;
    forall a, b | 0 <= a < b < |r| ensures StrengthKey(r[a].value) >= StrengthKey(r[b].value) {
      assert r[b] == t[b - 1];
      if a > 0 {
        assert r[a] == t[a - 1];
      }
    }
  }

  /** `x` placed before the first entry it is at least as strong as. */
  function InsertByStrength(x: Correlation, s: seq<Correlation>): (r: seq<Correlation>)
    requires ByStrength(s)
    ensures ByStrength(r)
    ensures multiset(r) == multiset(s) + multiset{x}
    ensures forall y :: y in r <==> y == x || y in s
    ensures |r| == |s| + 1
  {
    if s == [] then [x]
    else if StrengthKey(x.value) >= StrengthKey(s[0].value) then
      assert forall y :: y in s ==> StrengthKey(s[0].value) >= StrengthKey(y.value);
      ConsByStrength(x, s);
      [x] + s
    else
      var rest := InsertByStrength(x, s[1..]);
      assert forall y :: y in s[1..] ==> StrengthKey(s[0].value) >= StrengthKey(y.value);
      ConsByStrength(s[0], rest);
      assert s == [s[0]] + s[1..];
      [s[0]] + rest
  }

  /** `corr_pairs.sort(key=abs, reverse=True)` as intended: by absolute
      value, strongest first, NaN last. */
  function SortByStrength(ps: seq<Correlation>): (r: seq<Correlation>)
    ensures ByStrength(r)
    ensures multiset(r) == multiset(ps)
    ensures |r| == |ps|
  {
    if ps == [] then []
    else
      assert ps == [ps[0]] + ps[1..];
      InsertByStrength(ps[0], SortByStrength(ps[1..]))
  }

  /** `corr_pairs[:5]` after the sort. */
  function TopFive(ps: seq<Correlation>): (top: seq<Correlation>)
    ensures |top| == if |ps| < 5 then |ps| else 5
  {
    var sorted := SortByStrength(ps);
    if |sorted| < 5 then sorted else sorted[..5]
  }

  /** The shown pairs are pairs of the list, none left out is stronger than
      any shown, and a NaN pair is shown only when no numeric pair is left
      out. */
  lemma TopFiveStrongest(ps: seq<Correlation>)
    ensures forall t :: t in TopFive(ps) ==> t in ps
    ensures forall c, t :: c in ps && c !in TopFive(ps) && t in TopFive(ps) ==>
      StrengthKey(t.value) >= StrengthKey(c.value)
    ensures forall c, t :: c in ps && c !in TopFive(ps) && t in TopFive(ps) && c.value.Some? ==>
      t.value.Some? && Abs(t.value.value) >= Abs(c.value.value)
  {
    var sorted := SortByStrength(ps);
    var top := TopFive(ps);
    assert top == sorted[..|top|];
    forall t | t in top ensures t in ps {
      assert t in multiset(sorted);
    }
    forall c, t | c in ps && c !in top && t in top ensures StrengthKey(t.value) >= StrengthKey(c.value) {
      assert c in multiset(sorted);
      var b :| 0 <= b < |sorted| && sorted[b] == c;
      var a :| 0 <= a < |top| && top[a] == t;
      assert b >= |top|;
    }
  }

  /** Python's `<` on the keys `abs(value)`: false whenever either is NaN. */
  predicate KeyLess(x: Correlation, y: Correlation)
  {
    x.value.Some? && y.value.Some? && Abs(x.value.value) < Abs(y.value.value)
  }

  /** No entry is `<` the next by key.  CPython's `sort(reverse=True)`
      reverses the list, finds it to be one non-descending run and reverses
      it back, so such a list comes back unchanged. */
  predicate SeenAsSorted(ps: seq<Correlation>)
  {
    forall k :: 0 <= k < |ps| - 1 ==> !KeyLess(ps[k], ps[k + 1])
  }

  /** Without NaN, a list strongest first is also one the source's sort
      leaves alone, so both orderings agree there. */
  lemma ByStrengthSeenAsSorted(ps: seq<Correlation>)
    requires ByStrength(ps)
    ensures SeenAsSorted(ps)
  {
  }

  /** A numeric pair stronger than every other pair of the list is shown. */
  lemma StrongestShown(ps: seq<Correlation>, x: Correlation)
    requires x in ps && x.value.Some?
    requires forall y :: y in ps && y != x ==> y.value.None? || Abs(y.value.value) < Abs(x.value.value)
    ensures x in TopFive(ps)
  {
    TopFiveStrongest(ps);
    var t := TopFive(ps)[0];
    assert t in ps;
  }

  /** As written, a NaN pair between two numbers stops the sort: a list of
      four pairs at 0.1, one NaN pair and one pair at 0.9 comes back
      unchanged, so the 0.9 pair is not among the five shown although it is
      stronger than every numeric one shown, and the corrected `TopFive`
      shows it. */
  lemma NaNHidesStrongerPair(ps: seq<Correlation>)
    requires |ps| == 6 && forall k :: 0 <= k < 4 ==> ps[k].value == Some(0.1)
    requires ps[4].value.None? && ps[5].value == Some(0.9)
    ensures SeenAsSorted(ps)
    ensures ps[5] !in ps[..5]
    ensures forall t :: t in ps[..5] && t.value.Some? ==> Abs(t.value.value) < Abs(ps[5].value.value)
    ensures ps[5] in TopFive(ps)
  {
    forall t | t in ps[..5] ensures t.value != ps[5].value && (t.value.Some? ==> t.value == Some(0.1)) {
      var k :| 0 <= k < 5 && ps[..5][k] == t;
    }
    forall y | y in ps && y != ps[5] ensures y.value.None? || Abs(y.value.value) < Abs(ps[5].value.value) {
      var k :| 0 <= k < 6 && ps[k] == y;
      assert y in ps[..5];
    }
    StrongestShown(ps, ps[5]);
  }

  /** The wording of a scatter plot's correlation; NaN compares false and
      reads as weak. */
  function CorrelationStrength(corr: Option<real>): (w: string)
    ensures w == "Strong" <==> corr.Some? && Abs(corr.value) > 0.7
    ensures w == "Moderate" <==> corr.Some? && 0.3 < Abs(corr.value) <= 0.7
    ensures w == "Weak" <==> corr.None? || Abs(corr.value) <= 0.3
  {
    if corr.Some? && Abs(corr.value) > 0.7 then "Strong"
    else if corr.Some? && Abs(corr.value) > 0.3 then "Moderate"
    else "Weak"
  }

  /** The wording ignores the sign and never weakens as the correlation
      grows in size. */
  lemma StrengthBySize(x: real, y: real)
    requires Abs(x) <= Abs(y)
    ensures CorrelationStrength(Some(x)) == CorrelationStrength(Some(-x))
    ensures CorrelationStrength(Some(x)) == "Strong" ==> CorrelationStrength(Some(y)) == "Strong"
    ensures CorrelationStrength(Some(x)) == "Moderate" ==> CorrelationStrength(Some(y)) != "Weak"
  {
  }
}
