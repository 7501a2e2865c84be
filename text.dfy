/** Text helpers shared by the dashboard model: an Option type for pandas'
    missing values, ASCII case mapping, single-character replacement,
    separator split/join, and decimal parsing of plain digit strings. */
module Text {

  /** A value that may be missing (pandas NaN / None). */
  datatype Option<+T> = None | Some(value: T)

  // ---------------------------------------------------------------------
  // Characters and digits

  predicate IsDigit(c: char) { '0' <= c <= '9' }

  predicate IsLowerAscii(c: char) { 'a' <= c <= 'z' }

  predicate IsUpperAscii(c: char) { 'A' <= c <= 'Z' }

  predicate AllDigits(s: string) { forall i :: 0 <= i < |s| ==> IsDigit(s[i]) }

  function DigitValue(c: char): (d: nat)
    requires IsDigit(c)
    ensures d < 10
  {
    c as int - '0' as int
  }

  function DigitChar(d: nat): (c: char)
    requires d < 10
    ensures IsDigit(c) && DigitValue(c) == d
  {
    (d + '0' as int) as char
  }

  /** Value of a digit string, most significant digit first. */
  function DigitsValue(s: string): nat
    requires AllDigits(s)
  {
    if s == [] then 0 else DigitsValue(s[..|s| - 1]) * 10 + DigitValue(s[|s| - 1])
  }

  /** Python's `str(n)` for a natural number. */
  function NatToString(n: nat): (s: string)
    ensures |s| > 0 && AllDigits(s)
    ensures n < 10 ==> |s| == 1
  {
    if n < 10 then [DigitChar(n)] else NatToString(n / 10) + [DigitChar(n % 10)]
  }

  lemma {:induction false} NatToStringValue(n: nat)
    ensures DigitsValue(NatToString(n)) == n
  {
    var s := NatToString(n);
    if n >= 10 {
      NatToStringValue(n / 10);
      assert s[..|s| - 1] == NatToString(n / 10);
    }
  }

  /** `int(s)` restricted to a plain non-empty string of decimal digits;
      anything else is the ValueError path. */
  function ParseNat(s: string): (r: Option<nat>)
    ensures r.Some? <==> |s| > 0 && AllDigits(s)
  {
    if |s| > 0 && AllDigits(s) then Some(DigitsValue(s)) else None
  }

  lemma ParseNatRoundTrip(n: nat)
    ensures ParseNat(NatToString(n)) == Some(n)
  {
    NatToStringValue(n);
  }

  function Pow10(k: nat): (p: nat)
    ensures p >= 1
  {
    if k == 0 then 1 else 10 * Pow10(k - 1)
  }

  /** Index of the first occurrence of `c` in `s`. */
  function IndexOf(s: string, c: char): (r: Option<nat>)
    ensures r.Some? ==> r.value < |s| && s[r.value] == c
    ensures r.Some? ==> forall i :: 0 <= i < r.value ==> s[i] != c
    ensures r.None? ==> c !in s
  {
    if s == [] then None
    else if s[0] == c then Some(0)
    else match IndexOf(s[1..], c)
      case None => None
      case Some(k) => Some(k + 1)
  }

  /** `float(s)` restricted to plain decimals: `ddd`, `ddd.ddd`, `ddd.` or
      `.ddd` with at least one digit. */
  /** The value of digits `w`, a point and digits `f`. */
  function DecimalValue(w: string, f: string): (v: real)
    requires AllDigits(w) && AllDigits(f)
    ensures v >= 0.0
    ensures f == [] ==> v == DigitsValue(w) as real
  {
    DigitsValue(w) as real + DigitsValue(f) as real / Pow10(|f|) as real
  }

  function ParseDecimal(s: string): (r: Option<real>)
    ensures |s| > 0 && AllDigits(s) ==> r == Some(DigitsValue(s) as real)
    ensures r.Some? ==> r.value >= 0.0
    ensures s == [] ==> r.None?
  {
    match IndexOf(s, '.')
    case None =>
      if |s| > 0 && AllDigits(s) then Some(DigitsValue(s) as real) else None
    case Some(k) =>
      var whole, frac := s[..k], s[k + 1..];
      if |whole| + |frac| > 0 && AllDigits(whole) && AllDigits(frac)
      then Some(DecimalValue(whole, frac))
      else None
  }

  /** The first point of `w + "." + f` is the one after `w` when `w` has
      none. */
  lemma FirstPoint(w: string, f: string)
    requires AllDigits(w)
    ensures IndexOf(w + "." + f, '.') == Some(|w|)
  {
    var s := w + "." + f;
    assert s[|w|] == '.';
    forall i | 0 <= i < |w| ensures s[i] != '.' {
      assert s[i] == w[i] && IsDigit(w[i]);
    }
    var r := IndexOf(s, '.');
    assert r.Some?;
  }

  /** Digits, a point and digits, not both empty, read as the whole part
      plus the fraction: "45.5" is 45.5, ".5" is 0.5 and "45." is 45. */
  lemma DecimalOfParts(w: string, f: string)
    requires AllDigits(w) && AllDigits(f) && |w| + |f| > 0
    ensures ParseDecimal(w + "." + f) == Some(DecimalValue(w, f))
  {
    var s := w + "." + f;
    FirstPoint(w, f);
    assert s[..|w|] == w && s[|w| + 1..] == f;
  }

  /** Text that `float()` reads: "45.5" is 45.5 and ".5" is 0.5. */
  lemma DecimalReadExamples()
    ensures ParseDecimal("45.5") == Some(45.5)
    ensures ParseDecimal(".5") == Some(0.5)
  {
    assert DigitsValue("45") == 45 && DigitsValue("5") == 5 && DigitsValue("") == 0;
    assert Pow10(|"5"|) == 10;
    DecimalOfParts("45", "5");
    assert "45" + "." + "5" == "45.5";
    DecimalOfParts("", "5");
    assert "" + "." + "5" == ".5";
  }

  /** Text that `float()` rejects: a second point or a percent sign. */
  lemma DecimalRejectExamples()
    ensures ParseDecimal("4.5.1").None?
    ensures ParseDecimal("45%").None?
  {
    assert IndexOf("4.5.1", '.') == Some(1);
    assert "4.5.1"[2..] == "5.1" && !IsDigit("5.1"[1]);
    assert IndexOf("45%", '.').None?;
    assert !IsDigit("45%"[2]);
  }

  /** Every text `float()` is modelled to accept is plain digits, or digits
      around exactly one point; so "4.5.1" and "45%" are rejected. */
  lemma DecimalOnlyParts(s: string) returns (w: string, f: string)
    requires ParseDecimal(s).Some?
    ensures AllDigits(w) && AllDigits(f) && |w| + |f| > 0
    ensures s == w || s == w + "." + f
    ensures s == w ==> f == []
    ensures ParseDecimal(s) == Some(DecimalValue(w, f))
  {
    match IndexOf(s, '.')
    case None =>
      w, f := s, [];
    case Some(k) =>
      w, f := s[..k], s[k + 1..];
      assert s == w + "." + f;
  }

  // ---------------------------------------------------------------------
  // Case mapping (ASCII only) and character replacement

  function LowerChar(c: char): (d: char)
    ensures !IsUpperAscii(d)
    ensures !IsUpperAscii(c) ==> d == c
  {
    if IsUpperAscii(c) then (c as int - 'A' as int + 'a' as int) as char else c
  }

  function UpperChar(c: char): (d: char)
    ensures !IsLowerAscii(d)
    ensures !IsLowerAscii(c) ==> d == c
    ensures LowerChar(d) == LowerChar(c)
  {
    if IsLowerAscii(c) then (c as int - 'a' as int + 'A' as int) as char else c
  }

  /** `s.lower()` on ASCII letters. */
  function Lower(s: string): (r: string)
    ensures |r| == |s|
    ensures forall i :: 0 <= i < |s| ==> r[i] == LowerChar(s[i])
  {
    if s == [] then [] else [LowerChar(s[0])] + Lower(s[1..])
  }

  /** `s.capitalize()`: first character upper case, the rest lower case. */
  function Capitalize(s: string): (r: string)
    ensures |r| == |s|
    ensures |s| > 0 ==> r[0] == UpperChar(s[0])
    ensures forall i :: 1 <= i < |s| ==> r[i] == LowerChar(s[i])
  {
    if s == [] then [] else [UpperChar(s[0])] + Lower(s[1..])
  }

  /** `s.replace(a, b)` for single characters `a` and `b`. */
  function ReplaceChar(s: string, a: char, b: char): (r: string)
    ensures |r| == |s|
    ensures forall i :: 0 <= i < |s| ==> r[i] == (if s[i] == a then b else s[i])
  {
    if s == [] then [] else [if s[0] == a then b else s[0]] + ReplaceChar(s[1..], a, b)
  }

  /** `s.replace(c, '')`: every occurrence of `c` deleted. */
  function RemoveChar(s: string, c: char): (r: string)
    ensures c !in r
    ensures |r| <= |s|
    ensures forall d :: d != c ==> (d in r <==> d in s)
    ensures c !in s ==> r == s
  {
    if s == [] then [] else (if s[0] == c then [] else [s[0]]) + RemoveChar(s[1..], c)
  }

  // ---------------------------------------------------------------------
  // Splitting on a separator and joining back

  /** `sep` occurs in `s` starting at position `p`. */
  predicate OccursAt(s: string, sep: string, p: nat)
  {
    p + |sep| <= |s| && s[p..p + |sep|] == sep
  }

  predicate Contains(s: string, sep: string)
  {
    exists p: nat :: p <= |s| && OccursAt(s, sep, p)
  }

  function Join(ts: seq<string>, sep: string): string
  {
    if ts == [] then "" else if |ts| == 1 then ts[0] else ts[0] + sep + Join(ts[1..], sep)
  }

  /** Python's `s.split(sep)` for a non-empty separator: scan left to right,
      `cur` is the token being built and `rest` the unread input. */
  function SplitFrom(rest: string, cur: string, sep: string): (ts: seq<string>)
    requires |sep| > 0
    ensures |ts| > 0
    decreases |rest|
  {
    if rest == [] then [cur]
    else if |sep| <= |rest| && rest[..|sep|] == sep then [cur] + SplitFrom(rest[|sep|..], "", sep)
    else SplitFrom(rest[1..], cur + [rest[0]], sep)
  }

  function Split(s: string, sep: string): (ts: seq<string>)
    requires |sep| > 0
    ensures |ts| > 0
  {
    SplitFrom(s, "", sep)
  }

  lemma {:induction false} JoinSplitFrom(rest: string, cur: string, sep: string)
    requires |sep| > 0
    ensures Join(SplitFrom(rest, cur, sep), sep) == cur + rest
    decreases |rest|
  {
    if rest == [] {
    } else if |sep| <= |rest| && rest[..|sep|] == sep {
      JoinSplitFrom(rest[|sep|..], "", sep);
      assert rest == sep + rest[|sep|..];
    } else {
      JoinSplitFrom(rest[1..], cur + [rest[0]], sep);
      assert cur + [rest[0]] + rest[1..] == cur + rest;
    }
  }

  /** Joining the tokens of a split with the same separator gives back the
      original string. */
  lemma JoinSplit(s: string, sep: string)
    requires |sep| > 0
    ensures Join(Split(s, sep), sep) == s
  {
    JoinSplitFrom(s, "", sep);
  }

  /** No occurrence of `sep` in `w` starts before position `n`. */
  predicate NoOccurrenceBefore(w: string, sep: string, n: nat)
  {
    forall p: nat :: p < n ==> !OccursAt(w, sep, p)
  }

  lemma {:induction false} SplitFromTokensFree(rest: string, cur: string, sep: string)
    requires |sep| > 0
    requires NoOccurrenceBefore(cur + rest, sep, |cur|)
    ensures forall t :: t in SplitFrom(rest, cur, sep) ==> !Contains(t, sep)
    decreases |rest|
  {
    var w := cur + rest;
    assert !Contains(cur, sep) by {
      forall p: nat | p <= |cur| ensures !OccursAt(cur, sep, p) {
        if p + |sep| <= |cur| {
          assert cur[p..p + |sep|] == w[p..p + |sep|];
          assert !OccursAt(w, sep, p);
        }
      }
    }
    if rest == [] {
    } else if |sep| <= |rest| && rest[..|sep|] == sep {
      SplitFromTokensFree(rest[|sep|..], "", sep);
    } else {
      var cur', rest' := cur + [rest[0]], rest[1..];
      assert cur' + rest' == w;
      forall p: nat | p < |cur'| ensures !OccursAt(cur' + rest', sep, p) {
        if p == |cur| {
          assert p + |sep| <= |w| ==> w[p..p + |sep|] == rest[..|sep|];
        }
      }
      SplitFromTokensFree(rest', cur', sep);
    }
  }

  /** No token of a split contains the separator. */
  lemma SplitTokensFree(s: string, sep: string)
    requires |sep| > 0
    ensures forall t :: t in Split(s, sep) ==> !Contains(t, sep)
  {
    SplitFromTokensFree(s, "", sep);
  }

  lemma {:induction false} SplitFromSkips(x: string, rest: string, cur: string, c: char)
    requires c !in x
    ensures SplitFrom(x + rest, cur, [c]) == SplitFrom(rest, cur + x, [c])
    decreases |x|
  {
    if x == [] {
      assert x + rest == rest;
      assert cur + x == cur;
    } else {
      var w := x + rest;
      assert w[..1] == [x[0]] && w[0] == x[0];
      assert w[1..] == x[1..] + rest;
      SplitFromSkips(x[1..], rest, cur + [x[0]], c);
      assert cur + [x[0]] + x[1..] == cur + x;
    }
  }

  /** Splitting `x c y` on the single character `c`, when neither part
      contains it, gives exactly the two parts. */
  lemma SplitAroundChar(x: string, y: string, c: char)
    requires c !in x && c !in y
    ensures Split(x + [c] + y, [c]) == [x, y]
  {
    SplitFromSkips(x, [c] + y, "", c);
    assert x + [c] + y == x + ([c] + y);
    assert "" + x == x;
    var w := [c] + y;
    assert w[..1] == [c];
    assert w[1..] == y;
    SplitFromSkips(y, "", "", c);
    assert y + "" == y;
    assert "" + y == y;
  }

  /** Every character of a joined token is a character of the joined string. */
  lemma {:induction false} JoinKeepsChars(ts: seq<string>, sep: string, t: string, c: char)
    requires t in ts && c in t
    ensures c in Join(ts, sep)
  {
    if |ts| > 1 && t != ts[0] {
      JoinKeepsChars(ts[1..], sep, t, c);
    }
  }

  /** Every character of a split token is a character of the input. */
  lemma SplitKeepsChars(s: string, sep: string, t: string, c: char)
    requires |sep| > 0
    requires t in Split(s, sep) && c in t
    ensures c in s
  {
    JoinSplit(s, sep);
    JoinKeepsChars(Split(s, sep), sep, t, c);
  }
}
