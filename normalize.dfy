/** The per-cell rules of `load_data`: list-field cleaning with a
    `_primary` first answer, the income lookup, the area range parser, the
    rent-burden buckets, six closed vocabularies and ten dissatisfaction
    flags.  Each rule is a total function on one cell. */
module Normalize {
  import opened Text
  import opened Frame

  // ---------------------------------------------------------------------
  // List-encoded answers

  /** The columns holding a Python list written as text, e.g. "['arrendo']". */
  const ListColumns: seq<string> := [
    "situacao-habitacional", "tipo-casa", "tipologia", "situacao-profissional",
    "satisfacao", "estrategia-arrendamento", "insatisfacao-motivos", "estrategia-compra"]

  /** The separator between answers inside a list cell. */
  const AnswerSep: string := ", "

  /** Deletes every `[`, `]` and `'`. */
  function StripListMarks(s: string): (r: string)
    ensures '[' !in r && ']' !in r && '\'' !in r
    ensures forall d :: d != '[' && d != ']' && d != '\'' ==> (d in r <==> d in s)
    ensures |r| <= |s|
  {
    RemoveChar(RemoveChar(RemoveChar(s, '['), ']'), '\'')
  }

  /** `.str.replace('[','').str.replace(']','').str.replace("'",'').str.split(', ')`
      on one cell; a non-string cell becomes missing. */
  function CleanList(c: Cell): (r: Cell)
    ensures c.Str? ==> r.Tokens?
    ensures !c.Str? ==> r == Missing
  {
    match c
    case Str(s) => Tokens(Split(StripListMarks(s), AnswerSep))
    case _ => Missing
  }

  /** A cleaned list has at least one token, no token contains a bracket, a
      quote or the separator, and joining the tokens with the separator
      gives back the stripped string. */
  lemma CleanListTokens(s: string)
    ensures var ts := CleanList(Str(s)).items;
      |ts| > 0 && Join(ts, AnswerSep) == StripListMarks(s) &&
      forall t :: t in ts ==> !Contains(t, AnswerSep) && '[' !in t && ']' !in t && '\'' !in t
  {
    var x := StripListMarks(s);
    var ts := Split(x, AnswerSep);
    JoinSplit(x, AnswerSep);
    SplitTokensFree(x, AnswerSep);
    forall t, d | t in ts && d in t ensures d in x {
      SplitKeepsChars(x, AnswerSep, t, d);
    }
  }

  /** `x[0] if isinstance(x, list) and len(x) > 0 else x`. */
  function Primary(c: Cell): (r: Cell)
    ensures c.Tokens? && |c.items| > 0 ==> r.Str? && r.s in c.items
    ensures !c.Tokens? ==> r == c
  {
    if c.Tokens? && |c.items| > 0 then Str(c.items[0]) else c
  }

  /** The primary answer of a cleaned list cell is the text before the first
      ", " of the stripped string (the whole string when there is none); a
      missing cell stays missing. */
  lemma PrimaryIsFirstAnswer(c: Cell)
    ensures !c.Str? ==> Primary(CleanList(c)) == Missing
    ensures c.Str? ==>
      var x := StripListMarks(c.s);
      var p := Primary(CleanList(c));
      p.Str? && !Contains(p.s, AnswerSep) &&
      (p.s == x || (|p.s| + 2 <= |x| && x[..|p.s| + 2] == p.s + AnswerSep))
  {
    if c.Str? {
      CleanListTokens(c.s);
      var ts := CleanList(c).items;
      var x := StripListMarks(c.s);
      assert Join(ts, AnswerSep) == x;
      if |ts| > 1 {
        assert x == ts[0] + AnswerSep + Join(ts[1..], AnswerSep);
        assert x[..|ts[0]| + 2] == ts[0] + AnswerSep;
      }
    }
  }

  // ---------------------------------------------------------------------
  // Income brackets

  /** The bracket codes from poorest to richest. */
  const IncomeCodes: seq<string> := [
    "sem-rendimento", "<7001", "7001-12000", "12001-20000",
    "20001-35000", "35001-50000", "50001-80000", ">80001"]

  /** `parse_income`: one representative amount per bracket code. */
  function ParseIncome(c: Cell): (r: Option<real>)
    ensures r.Some? <==> c.Str? && c.s in IncomeCodes
    ensures r.Some? ==> 0.0 <= r.value <= 100000.0
  {
    if !c.Str? then None
    else if c.s == "sem-rendimento" then Some(0.0)
    else if c.s == "<7001" then Some(3500.0)
    else if c.s == "7001-12000" then Some(9500.0)
    else if c.s == "12001-20000" then Some(16000.0)
    else if c.s == "20001-35000" then Some(27500.0)
    else if c.s == "35001-50000" then Some(42500.0)
    else if c.s == "50001-80000" then Some(65000.0)
    else if c.s == ">80001" then Some(100000.0)
    else None
  }

  /** The amounts strictly increase along the bracket order. */
  lemma IncomeIncreasing(i: nat, j: nat)
    requires i < j < |IncomeCodes|
    ensures ParseIncome(Str(IncomeCodes[i])).Some? && ParseIncome(Str(IncomeCodes[j])).Some?
    ensures ParseIncome(Str(IncomeCodes[i])).value < ParseIncome(Str(IncomeCodes[j])).value
  {
  }

  // ---------------------------------------------------------------------
  // Floor area

  /** `map(int, s.split('-'))` unpacked into two values, then their mean;
      the unpacking or conversion error is the missing case. */
  function RangeMidpoint(s: string): (r: Option<real>)
    ensures r.Some? ==> r.value >= 0.0
  {
    var parts := Split(s, "-");
    if |parts| == 2 && ParseNat(parts[0]).Some? && ParseNat(parts[1]).Some?
    then Some((ParseNat(parts[0]).value + ParseNat(parts[1]).value) as real / 2.0)
    else None
  }

  /** `parse_area`: ">400" is 450; "a-b" with two integer parts is the
      midpoint; other text and a missing cell are missing.  On a number the
      source raises; `Loading.LoadData` fails before this value is used. */
  function ParseArea(c: Cell): (r: Option<real>)
    ensures c == Str(">400") ==> r == Some(450.0)
    ensures r.Some? ==> c.Str? && r.value >= 0.0
    ensures c.Str? && c.s != ">400" && '-' !in c.s ==> r.None?
  {
    match c
    case Str(s) =>
      if s == ">400" then Some(450.0)
      else if '-' in s then RangeMidpoint(s)
      else None
    case _ => None
  }

  lemma DigitsHaveNoDash(x: string)
    requires AllDigits(x)
    ensures '-' !in x
  {
  }

  lemma RangeNotSentinel(x: string, y: string)
    requires |x| > 0 && AllDigits(x)
    ensures x + "-" + y != ">400"
  {
    var s := x + "-" + y;
    assert s[0] == x[0];
    assert ">400"[0] == '>';
  }

  lemma MidpointOfParts(x: string, y: string)
    requires |x| > 0 && AllDigits(x) && |y| > 0 && AllDigits(y)
    requires Split(x + "-" + y, "-") == [x, y]
    ensures RangeMidpoint(x + "-" + y) == Some((DigitsValue(x) + DigitsValue(y)) as real / 2.0)
  {
  }

  /** Two integer parts joined by one dash give their midpoint. */
  lemma {:induction false} AreaOfRange(x: string, y: string)
    requires |x| > 0 && AllDigits(x) && |y| > 0 && AllDigits(y)
    ensures ParseArea(Str(x + "-" + y)) == Some((DigitsValue(x) + DigitsValue(y)) as real / 2.0)
  {
    var s := x + "-" + y;
    DigitsHaveNoDash(x);
    DigitsHaveNoDash(y);
    SplitAroundChar(x, y, '-');
    MidpointOfParts(x, y);
    RangeNotSentinel(x, y);
    assert s[|x|] == '-';
  }

  /** The midpoint of a range lies between its two ends. */
  lemma MidpointBetween(x: string, y: string)
    requires |x| > 0 && AllDigits(x) && |y| > 0 && AllDigits(y)
    ensures ParseArea(Str(x + "-" + y)).Some?
    ensures var m := ParseArea(Str(x + "-" + y)).value;
      var a, b := DigitsValue(x) as real, DigitsValue(y) as real;
      (a <= m <= b) || (b <= m <= a)
  {
    AreaOfRange(x, y);
  }

  lemma SplitOfTwo(s: string)
    requires |Split(s, "-")| == 2
    ensures s == Split(s, "-")[0] + "-" + Split(s, "-")[1]
  {
    var parts := Split(s, "-");
    JoinSplit(s, "-");
    assert parts[1..] == [parts[1]];
  }

  /** Every accepted string other than ">400" is two integer parts joined
      by one dash, and the result is their midpoint. */
  lemma AreaOnlyRanges(s: string) returns (x: string, y: string)
    requires ParseArea(Str(s)).Some? && s != ">400"
    ensures |x| > 0 && AllDigits(x) && |y| > 0 && AllDigits(y) && s == x + "-" + y
    ensures ParseArea(Str(s)) == Some((DigitsValue(x) + DigitsValue(y)) as real / 2.0)
  {
    var parts := Split(s, "-");
    assert RangeMidpoint(s).Some?;
    x, y := parts[0], parts[1];
    assert ParseNat(x).Some? && ParseNat(y).Some?;
    SplitOfTwo(s);
    AreaOfRange(x, y);
  }

  // ---------------------------------------------------------------------
  // Rent burden

  const Affordable: string := "≤30% (Affordable)"
  const Moderate: string := "31-50% (Moderate)"
  const HighBurden: string := "51-80% (High)"
  const VeryHighBurden: string := ">80% (Very High)"
  const UnknownBurden: string := "Unknown"

  /** The labels from lightest to heaviest, then "Unknown". */
  const BurdenLabels: seq<string> := [Affordable, Moderate, HighBurden, VeryHighBurden, UnknownBurden]

  /** `float(pct)`: a number as it is, a string through the decimal parser. */
  function PercentValue(c: Cell): (r: Option<real>)
    ensures c.Number? ==> r == Some(c.x)
    ensures c.Missing? ==> r.None?
    ensures c.Str? ==> r == ParseDecimal(c.s)
  {
    match c
    case Number(x) => Some(x)
    case Str(s) => ParseDecimal(s)
    case _ => None
  }

  /** The bucket of a parsed percentage; upper bounds are inclusive. */
  function BurdenLabel(p: real): (r: string)
    ensures r == Affordable <==> p <= 30.0
    ensures r == Moderate <==> 30.0 < p <= 50.0
    ensures r == HighBurden <==> 50.0 < p <= 80.0
    ensures r == VeryHighBurden <==> 80.0 < p
  {
    if p <= 30.0 then Affordable
    else if p <= 50.0 then Moderate
    else if p <= 80.0 then HighBurden
    else VeryHighBurden
  }

  /** `categorize_rent_percentage`. */
  function RentBurden(c: Cell): (r: string)
    ensures r in BurdenLabels
    ensures r == UnknownBurden <==> PercentValue(c).None?
    ensures PercentValue(c).Some? ==> r == BurdenLabel(PercentValue(c).value)
  {
    match PercentValue(c)
    case None => UnknownBurden
    case Some(p) => BurdenLabel(p)
  }

  /** Position of a label in `BurdenLabels`. */
  function BurdenRank(tag: string): (k: nat)
    ensures tag in BurdenLabels ==> k < |BurdenLabels| && BurdenLabels[k] == tag
  {
    if tag == Affordable then 0
    else if tag == Moderate then 1
    else if tag == HighBurden then 2
    else if tag == VeryHighBurden then 3
    else 4
  }

  /** A larger share of income never gets a lighter bucket. */
  lemma BurdenMonotone(p: real, q: real)
    requires p <= q
    ensures BurdenRank(BurdenLabel(p)) <= BurdenRank(BurdenLabel(q))
  {
  }

  // ---------------------------------------------------------------------
  // Closed vocabularies

  const HousingMap: map<string, string> :=
    map["arrendo" := "Renting", "comprei" := "Owned", "outrem" := "Living with others"]

  const SatisfactionMap: map<string, string> :=
    map["muito-satisfeito" := "Very Satisfied", "satisfeito" := "Satisfied",
        "indiferente" := "Neutral", "insatisfeito" := "Dissatisfied",
        "muito-insatisfeito" := "Very Dissatisfied"]

  const HouseTypeMap: map<string, string> :=
    map["apartamento" := "Apartment", "moradia" := "House"]

  const BedroomMap: map<string, string> :=
    map["T0" := "0", "T1" := "1", "T2" := "2", "T3" := "3", "T4+" := "4+"]

  const EmploymentMap: map<string, string> :=
    map["empregado-tempo-inteiro" := "Full-time", "empregado-tempo-parcial" := "Part-time",
        "independente" := "Self-employed", "desempregado" := "Unemployed",
        "estudante" := "Student", "reformado" := "Retired"]

  const EducationMap: map<string, string> :=
    map["licenciatura" := "Bachelor's", "mestrado" := "Master's", "doutoramento" := "PhD",
        "secundario" := "High School", "profissional" := "Vocational", "basico" := "Basic"]

  predicate Injective(m: map<string, string>)
  {
    forall a, b :: a in m && b in m && a != b ==> m[a] != m[b]
  }

  /** `Series.map(m)` on one cell: a listed string gets its label, every
      other value (missing included) becomes missing. */
  function MapVocab(c: Cell, m: map<string, string>): Cell
  {
    if c.Str? && c.s in m then Str(m[c.s]) else Missing
  }

  /** A listed token gets its label; the result is always missing or a
      label of the vocabulary. */
  lemma VocabLookup(c: Cell, m: map<string, string>)
    ensures var r := MapVocab(c, m);
      (c.Str? && c.s in m ==> r == Str(m[c.s])) &&
      (!(c.Str? && c.s in m) ==> r == Missing) &&
      (r == Missing || (r.Str? && r.s in m.Values))
  {
  }

  /** The housing vocabulary has three labels. */
  lemma HousingLabels(c: Cell)
    ensures var h := MapVocab(c, HousingMap);
      h == Missing || h == Str("Renting") || h == Str("Owned") || h == Str("Living with others")
  {
    if c.Str? && c.s in HousingMap {
      assert HousingMap.Keys == {"arrendo", "comprei", "outrem"};
    }
  }

  /** Distinct tokens get distinct labels, in each of the six vocabularies. */
  lemma HousingInjective()
    ensures Injective(HousingMap)
  {
    assert HousingMap.Keys == {"arrendo", "comprei", "outrem"};
  }

  lemma SatisfactionInjective()
    ensures Injective(SatisfactionMap)
  {
    assert SatisfactionMap.Keys ==
      {"muito-satisfeito", "satisfeito", "indiferente", "insatisfeito", "muito-insatisfeito"};
  }

  lemma HouseTypeInjective()
    ensures Injective(HouseTypeMap)
  {
    assert HouseTypeMap.Keys == {"apartamento", "moradia"};
  }

  lemma BedroomInjective()
    ensures Injective(BedroomMap)
  {
    assert BedroomMap.Keys == {"T0", "T1", "T2", "T3", "T4+"};
  }

  lemma EmploymentInjective()
    ensures Injective(EmploymentMap)
  {
    assert EmploymentMap.Keys == {"empregado-tempo-inteiro", "empregado-tempo-parcial",
      "independente", "desempregado", "estudante", "reformado"};
  }

  lemma EducationInjective()
    ensures Injective(EducationMap)
  {
    assert EducationMap.Keys == {"licenciatura", "mestrado", "doutoramento",
      "secundario", "profissional", "basico"};
  }

  /** Through an injective vocabulary a label identifies its token. */
  lemma VocabRecoversToken(c1: Cell, c2: Cell, m: map<string, string>)
    requires Injective(m)
    requires MapVocab(c1, m) == MapVocab(c2, m) != Missing
    ensures c1 == c2
  {
  }

  // ---------------------------------------------------------------------
  // Dissatisfaction flags

  const Reasons: seq<string> := [
    "pago-demasiado", "falta-espaco", "habitacao-mau-estado",
    "vivo-longe", "quero-independecia", "dificuldades-financeiras",
    "financeiramente-dependente", "vivo-longe-de-transportes",
    "vivo-zona-insegura", "partilho-casa-com-desconhecidos"]

  /** `1 if isinstance(x, list) and reason in x else 0`. */
  function ReasonFlag(c: Cell, reason: string): (f: nat)
    ensures f <= 1
    ensures f == 1 <==> c.Tokens? && reason in c.items
  {
    if c.Tokens? && reason in c.items then 1 else 0
  }

  function SumFlags(c: Cell, rs: seq<string>): nat
  {
    if rs == [] then 0 else ReasonFlag(c, rs[0]) + SumFlags(c, rs[1..])
  }

  /** The catalogue entries present in the answer list. */
  function ReasonsGiven(c: Cell, rs: seq<string>): set<string>
  {
    set r | r in rs && c.Tokens? && r in c.items
  }

  predicate Distinct(rs: seq<string>)
  {
    forall i, j :: 0 <= i < j < |rs| ==> rs[i] != rs[j]
  }

  /** Over a catalogue without repeats the flags add up to the number of
      catalogue entries present in the list. */
  lemma {:induction false} SumFlagsCountsReasons(c: Cell, rs: seq<string>)
    requires Distinct(rs)
    ensures SumFlags(c, rs) == |ReasonsGiven(c, rs)| <= |rs|
  {
    if rs != [] {
      SumFlagsCountsReasons(c, rs[1..]);
      var tail := ReasonsGiven(c, rs[1..]);
      assert rs[0] !in rs[1..] by {
        forall k | 0 <= k < |rs[1..]| ensures rs[1..][k] != rs[0] {
          assert rs[1..][k] == rs[k + 1];
        }
      }
      if c.Tokens? && rs[0] in c.items {
        assert ReasonsGiven(c, rs) == tail + {rs[0]};
      } else {
        assert ReasonsGiven(c, rs) == tail;
      }
    }
  }

  /** The ten flags of one answer list add up to at most 10. */
  lemma FlagsAtMostTen(c: Cell)
    ensures SumFlags(c, Reasons) == |ReasonsGiven(c, Reasons)| <= 10
  {
    SumFlagsCountsReasons(c, Reasons);
  }
}
