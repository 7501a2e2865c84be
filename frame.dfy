/** A pandas DataFrame reduced to what the dashboard uses: an ordered list
    of column names and a sequence of rows, each row a map from column name
    to cell.  Boolean-mask selection `df[mask]` is `Select`. */
module Frame {
  import opened Text

  /** One DataFrame cell: NaN/None, a string, a Python list of strings
      (after list cleaning), or a number. */
  datatype Cell = Missing | Str(s: string) | Tokens(items: seq<string>) | Number(x: real)

  type Row = map<string, Cell>

  datatype Table = Table(columns: seq<string>, rows: seq<Row>)

  /** `row[col]`, with an absent key read as missing. */
  function Get(r: Row, col: string): Cell
  {
    if col in r then r[col] else Missing
  }

  function OptNumber(v: Option<real>): (c: Cell)
    ensures v.None? <==> c == Missing
    ensures v.Some? ==> c == Number(v.value)
  {
    match v
    case None => Missing
    case Some(x) => Number(x)
  }

  /** The column list after `df[name] = ...`: an existing column keeps its
      place, a new one is appended. */
  function AddColumn(cols: seq<string>, name: string): (r: seq<string>)
    ensures name in r
    ensures forall c :: c in cols ==> c in r
    ensures forall c :: c in r ==> c in cols || c == name
    ensures |r| == if name in cols then |cols| else |cols| + 1
  {
    if name in cols then cols else cols + [name]
  }

  /** The column list after assigning `names` in order. */
  function AddColumns(cols: seq<string>, names: seq<string>): (cs: seq<string>)
    ensures forall c :: c in cols || c in names ==> c in cs
    ensures forall c :: c in cs ==> c in cols || c in names
    decreases names
  {
    if names == [] then cols else AddColumns(AddColumn(cols, names[0]), names[1..])
  }

  lemma {:induction false} AddColumnsAppend(cols: seq<string>, names: seq<string>, n: string)
    ensures AddColumns(cols, names + [n]) == AddColumn(AddColumns(cols, names), n)
    decreases names
  {
    if names != [] {
      assert (names + [n])[1..] == names[1..] + [n];
      AddColumnsAppend(AddColumn(cols, names[0]), names[1..], n);
    } else {
      assert names + [n] == [n];
    }
  }

  // ---------------------------------------------------------------------
  // Order-preserving selection

  /** `a` is a subsequence of `b` (greedy matching). */
  predicate SubsequenceOf<T(==)>(a: seq<T>, b: seq<T>)
  {
    if a == [] then true
    else if b == [] then false
    else if a[0] == b[0] then SubsequenceOf(a[1..], b[1..])
    else SubsequenceOf(a, b[1..])
  }

  lemma {:induction false} SubsequenceSkip<T>(a: seq<T>, b: seq<T>)
    requires b != [] && SubsequenceOf(a, b[1..])
    ensures SubsequenceOf(a, b)
    decreases |a| + |b|, 1
  {
    if a != [] && a[0] == b[0] {
      SubsequenceTail(a, b[1..]);
      SubsequenceSkip(a[1..], b);
    }
  }

  /** The entries of `order` that `keep` accepts, in the order of `order`. */
  function Where(order: seq<string>, keep: string -> bool): (r: seq<string>)
    ensures SubsequenceOf(r, order)
    ensures forall c :: c in r <==> c in order && keep(c)
  {
    if order == [] then []
    else
      var rest := Where(order[1..], keep);
      if keep(order[0]) then
        assert ([order[0]] + rest)[1..] == rest;
        [order[0]] + rest
      else
        SubsequenceSkip(rest, order);
        rest
  }

  /** Two tests that agree on `order` select the same entries. */
  lemma {:induction false} WhereExt(order: seq<string>, p: string -> bool, q: string -> bool)
    requires forall c :: c in order ==> p(c) == q(c)
    ensures Where(order, p) == Where(order, q)
  {
    if order != [] {
      WhereExt(order[1..], p, q);
    }
  }

  lemma {:induction false} SubsequenceTail<T>(a: seq<T>, c: seq<T>)
    requires a != [] && SubsequenceOf(a, c)
    ensures SubsequenceOf(a[1..], c)
    decreases |a| + |c|, 0
  {
    if a[0] == c[0] {
      SubsequenceSkip(a[1..], c);
    } else {
      SubsequenceTail(a, c[1..]);
      SubsequenceSkip(a[1..], c);
    }
  }

  lemma {:induction false} SubsequenceRefl<T>(a: seq<T>)
    ensures SubsequenceOf(a, a)
  {
    if a != [] {
      SubsequenceRefl(a[1..]);
    }
  }

  /** The rows for which `keep` holds, in their original order. */
  function Select(rows: seq<Row>, keep: Row -> bool): (r: seq<Row>)
    ensures |r| <= |rows|
    ensures forall x :: x in r <==> x in rows && keep(x)
    ensures SubsequenceOf(r, rows)
  {
    if rows == [] then []
    else if keep(rows[0]) then
      var rest := Select(rows[1..], keep);
      assert SubsequenceOf([rows[0]] + rest, rows) by {
        assert ([rows[0]] + rest)[1..] == rest;
      }
      [rows[0]] + rest
    else
      var rest := Select(rows[1..], keep);
      SubsequenceSkip(rest, rows);
      rest
  }

  lemma {:induction false} SelectMultiplicity(rows: seq<Row>, keep: Row -> bool, x: Row)
    ensures multiset(Select(rows, keep))[x] == if keep(x) then multiset(rows)[x] else 0
  {
    if rows != [] {
      SelectMultiplicity(rows[1..], keep, x);
      assert rows == [rows[0]] + rows[1..];
    }
  }

  lemma {:induction false} SelectAppend(a: seq<Row>, b: seq<Row>, keep: Row -> bool)
    ensures Select(a + b, keep) == Select(a, keep) + Select(b, keep)
  {
    if a != [] {
      var ab := a + b;
      assert ab[0] == a[0];
      assert ab[1..] == a[1..] + b;
      SelectAppend(a[1..], b, keep);
      if keep(a[0]) {
        assert Select(ab, keep) == [a[0]] + Select(ab[1..], keep);
        assert Select(a, keep) == [a[0]] + Select(a[1..], keep);
      } else {
        assert Select(ab, keep) == Select(ab[1..], keep);
        assert Select(a, keep) == Select(a[1..], keep);
      }
    } else {
      assert a + b == b;
    }
  }

  lemma {:induction false} SelectAll(rows: seq<Row>, keep: Row -> bool)
    requires forall x :: x in rows ==> keep(x)
    ensures Select(rows, keep) == rows
  {
    if rows != [] {
      SelectAll(rows[1..], keep);
    }
  }

  lemma {:induction false} SelectNone(rows: seq<Row>, keep: Row -> bool)
    requires forall x :: x in rows ==> !keep(x)
    ensures Select(rows, keep) == []
  {
    if rows != [] {
      SelectNone(rows[1..], keep);
    }
  }

  /** Two masks that agree on every row select the same rows. */
  lemma {:induction false} SelectExt(rows: seq<Row>, p: Row -> bool, q: Row -> bool)
    requires forall x :: x in rows ==> p(x) == q(x)
    ensures Select(rows, p) == Select(rows, q)
  {
    if rows != [] {
      SelectExt(rows[1..], p, q);
    }
  }

  /** Selecting twice is selecting once on the conjunction. */
  lemma {:induction false} SelectSelect(rows: seq<Row>, p: Row -> bool, q: Row -> bool, pq: Row -> bool)
    requires forall x :: pq(x) == (p(x) && q(x))
    ensures Select(Select(rows, p), q) == Select(rows, pq)
  {
    if rows != [] {
      SelectSelect(rows[1..], p, q, pq);
    }
  }

  /** Two selections commute. */
  lemma SelectCommutes(rows: seq<Row>, p: Row -> bool, q: Row -> bool)
    ensures Select(Select(rows, p), q) == Select(Select(rows, q), p)
  {
    var pq := x => p(x) && q(x);
    SelectSelect(rows, p, q, pq);
    SelectSelect(rows, q, p, pq);
  }

  /** Number of rows satisfying `keep` (`mask.sum()`). */
  function CountWhere(rows: seq<Row>, keep: Row -> bool): (n: nat)
    ensures n <= |rows|
  {
    |Select(rows, keep)|
  }

  /** Rows whose masks are disjoint are counted at most once in total. */
  lemma {:induction false} CountDisjoint(rows: seq<Row>, p: Row -> bool, q: Row -> bool)
    requires forall x :: !(p(x) && q(x))
    ensures CountWhere(rows, p) + CountWhere(rows, q) <= |rows|
  {
    if rows != [] {
      CountDisjoint(rows[1..], p, q);
    }
  }

  /** Count of a union of two disjoint masks. */
  lemma {:induction false} CountUnion(rows: seq<Row>, p: Row -> bool, q: Row -> bool, pq: Row -> bool)
    requires forall x :: !(p(x) && q(x))
    requires forall x :: pq(x) == (p(x) || q(x))
    ensures CountWhere(rows, pq) == CountWhere(rows, p) + CountWhere(rows, q)
  {
    if rows != [] {
      CountUnion(rows[1..], p, q, pq);
    }
  }

  /** A mask implied by another counts at least as many rows. */
  lemma {:induction false} CountMono(rows: seq<Row>, p: Row -> bool, q: Row -> bool)
    requires forall x :: p(x) ==> q(x)
    ensures CountWhere(rows, p) <= CountWhere(rows, q)
  {
    if rows != [] {
      CountMono(rows[1..], p, q);
    }
  }

  /** `100 * part / whole` as an exact rational. */
  function Percent(part: nat, whole: nat): (p: real)
    requires part <= whole && whole > 0
    ensures 0.0 <= p <= 100.0
    ensures part == whole ==> p == 100.0
    ensures part == 0 ==> p == 0.0
  {
    100.0 * part as real / whole as real
  }

  /** The same part of a larger whole is a smaller percentage. */
  lemma PercentShrinks(part: nat, whole: nat, larger: nat)
    requires part <= whole <= larger && whole > 0
    ensures Percent(part, larger) <= Percent(part, whole)
  {
    var p := 100.0 * part as real;
    var w, l := whole as real, larger as real;
    var a, b := p / l, p / w;
    assert a * l == p && b * w == p;
    assert b >= 0.0;
    assert b * w <= b * l;
    assert a * l <= b * l;
  }

  /** Percentages of disjoint parts of one whole add up. */
  lemma PercentAdd(a: nat, b: nat, whole: nat)
    requires a + b <= whole && whole > 0
    ensures Percent(a, whole) + Percent(b, whole) == Percent(a + b, whole)
  {
    assert Percent(a, whole) + Percent(b, whole) == 100.0 * (a + b) as real / whole as real;
  }

  lemma PercentSum(a: nat, b: nat, whole: nat)
    requires a + b <= whole && whole > 0
    ensures Percent(a, whole) + Percent(b, whole) <= 100.0
    ensures a + b == whole ==> Percent(a, whole) + Percent(b, whole) == 100.0
  {
    PercentAdd(a, b, whole);
    var both := Percent(a + b, whole);
    assert a + b == whole ==> both == 100.0;
  }
}
