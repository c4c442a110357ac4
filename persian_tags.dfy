/**
 * The template filters of core/templatetags/persian_tags.py: Persian digits,
 * thousands grouping, and the icon and Persian-name tables for the default
 * categories.
 */
module PersianTags {
  import opened Wrappers
  import PyInt

  /** A value handed to a filter by the template engine. */
  datatype Value = IntValue(n: int) | TextValue(s: string) | NoneValue

  /** `str(value)`. */
  function Str(v: Value): string {
    match v
    case IntValue(n) => PyInt.DecimalString(n)
    case TextValue(s) => s
    case NoneValue => "None"
  }

  /** `int(value)`; `None` where it raises ValueError or TypeError. */
  function IntOf(v: Value): (r: Option<int>)
    ensures v.NoneValue? ==> r.None?
    ensures !v.NoneValue? ==> r == PyInt.ParseInt(Str(v))
  {
    match v
    case IntValue(n) => PyInt.ParseDecimalString(n); Some(n)
    case TextValue(s) => PyInt.ParseInt(s)
    case NoneValue => None
  }

  const PersianDigits: string := "۰۱۲۳۴۵۶۷۸۹"
  const EnglishDigits: string := "0123456789"

  predicate IsPersianDigit(c: char) {
    '\U{06F0}' <= c <= '\U{06F9}'
  }

  /** The two digit tables: position `d` holds the digit of value `d` in each script. */
  lemma DigitTables(d: int)
    requires 0 <= d < 10
    ensures |PersianDigits| == 10 && |EnglishDigits| == 10
    ensures PersianDigits[d] as int == 0x06F0 + d
    ensures EnglishDigits[d] as int == '0' as int + d
  {
  }

  function AsciiValue(c: char): int
    requires PyInt.IsAsciiDigit(c)
  {
    c as int - '0' as int
  }

  function LocaliseChar(c: char): char {
    if PyInt.IsAsciiDigit(c) then PersianDigits[AsciiValue(c)] else c
  }

  /**
   * What `persian_number` does to the text of its argument: every ASCII
   * digit becomes the Persian digit of the same value.
   */
  function Localise(s: string): (r: string)
    ensures |r| == |s|
    ensures forall i :: 0 <= i < |s| && PyInt.IsAsciiDigit(s[i]) ==> r[i] == PersianDigits[AsciiValue(s[i])]
    ensures forall i :: 0 <= i < |s| && !PyInt.IsAsciiDigit(s[i]) ==> r[i] == s[i]
    ensures forall i :: 0 <= i < |r| ==> !PyInt.IsAsciiDigit(r[i])
  {
    seq(|s|, i requires 0 <= i < |s| => LocaliseChar(s[i]))
  }

  /** `s.replace(a, b)` for one character. */
  function ReplaceChar(s: string, a: char, b: char): (r: string)
    ensures |r| == |s|
    ensures forall i :: 0 <= i < |s| ==> r[i] == if s[i] == a then b else s[i]
  {
    seq(|s|, i requires 0 <= i < |s| => if s[i] == a then b else s[i])
  }

  /** `persian_number`: one `replace` per digit, over the ten pairs of the two tables. */
  method PersianNumber(value: Value) returns (result: string)
    ensures result == Localise(Str(value))
  {
    result := Str(value);
    ghost var s := result;
    for d := 0 to 10
      invariant |result| == |s|
      invariant forall i :: 0 <= i < |s| ==>
        result[i] == if PyInt.IsAsciiDigit(s[i]) && AsciiValue(s[i]) < d then PersianDigits[AsciiValue(s[i])] else s[i]
    {
      DigitTables(d);
      result := ReplaceChar(result, EnglishDigits[d], PersianDigits[d]);
    }
  }

  /** Localised text holds no ASCII digit, so `persian_number` changes it no further. */
  lemma LocaliseIdempotent(s: string)
    ensures Localise(Localise(s)) == Localise(s)
  {
  }

  /** Persian digits back to ASCII: the inverse of `Localise` on text without Persian digits. */
  function Delocalise(s: string): (r: string)
    ensures |r| == |s|
  {
    seq(|s|, i requires 0 <= i < |s| =>
      if IsPersianDigit(s[i]) then PyInt.DigitChar(s[i] as int - 0x06F0) else s[i])
  }

  lemma DelocaliseLocalise(s: string)
    requires forall i :: 0 <= i < |s| ==> !IsPersianDigit(s[i])
    ensures Delocalise(Localise(s)) == s
  {
    forall i | 0 <= i < |s| ensures Delocalise(Localise(s))[i] == s[i] {
      if PyInt.IsAsciiDigit(s[i]) {
        DigitTables(AsciiValue(s[i]));
      }
    }
  }

  /** `s.replace(',', '')`. */
  function RemoveCommas(s: string): (r: string)
    ensures |r| <= |s|
  {
    if s == [] then []
    else RemoveCommas(s[..|s| - 1]) + (if s[|s| - 1] == ',' then "" else [s[|s| - 1]])
  }

  /** Digits split into groups of three from the right, joined by commas. */
  function GroupThousands(ds: string): (r: string)
    requires ds != []
    ensures |ds| <= 3 ==> r == ds
  {
    if |ds| <= 3 then ds
    else GroupThousands(ds[..|ds| - 3]) + "," + ds[|ds| - 3..]
  }

  /** `'{:,}'.format(n)`. */
  function Grouped(n: int): string {
    (if n < 0 then "-" else "") + GroupThousands(PyInt.NatDigits(if n < 0 then -n else n))
  }

  /**
   * `format_amount`: the grouped decimal rendering in Persian digits when
   * `int(value)` succeeds; the value itself when it raises.
   */
  function FormatAmount(value: Value): (r: Value)
    ensures IntOf(value).None? ==> r == value
    ensures IntOf(value).Some? ==> r.TextValue?
  {
    match IntOf(value)
    case None => value
    case Some(n) => TextValue(Localise(Grouped(n)))
  }

  /**
   * Commas at every fourth place counted from the right and nowhere else,
   * digits (as `isDigit` says) everywhere else, and no comma first: groups of
   * exactly three digits, after a leading group of one to three.
   */
  predicate ThousandsGrouped(r: string, isDigit: char -> bool) {
    && r != []
    && r[0] != ','
    && forall i :: 0 <= i < |r| ==>
         (r[i] == ',' <==> (|r| - 1 - i) % 4 == 3) && (r[i] != ',' ==> isDigit(r[i]))
  }

  lemma {:induction false} GroupThousandsShape(ds: string)
    requires ds != [] && forall i :: 0 <= i < |ds| ==> PyInt.IsAsciiDigit(ds[i])
    ensures ThousandsGrouped(GroupThousands(ds), PyInt.IsAsciiDigit)
  {
    if |ds| > 3 {
      var p := ds[..|ds| - 3];
      GroupThousandsShape(p);
      GroupAppend(GroupThousands(p), ds[|ds| - 3..], GroupThousands(ds), PyInt.IsAsciiDigit);
    }
  }

  /** A grouped rendering followed by a comma and three more digits is still grouped. */
  lemma GroupAppend(g: string, t: string, r: string, isDigit: char -> bool)
    requires ThousandsGrouped(g, isDigit)
    requires |t| == 3 && forall i :: 0 <= i < 3 ==> t[i] != ',' && isDigit(t[i])
    requires r == g + "," + t
    ensures ThousandsGrouped(r, isDigit)
  {
    forall i | 0 <= i < |r|
      ensures (r[i] == ',' <==> (|r| - 1 - i) % 4 == 3) && (r[i] != ',' ==> isDigit(r[i]))
    {
      if i < |g| {
        assert r[i] == g[i];
        assert |r| - 1 - i == (|g| - 1 - i) + 4;
      } else if i > |g| {
        assert r[i] == t[i - |g| - 1];
      }
    }
  }

  /** The leading group of a grouped rendering has one to three digits. */
  lemma LeadingGroup(r: string, isDigit: char -> bool)
    requires ThousandsGrouped(r, isDigit)
    ensures 1 <= (|r| - 1) % 4 + 1 <= 3
    ensures forall i :: 0 <= i <= (|r| - 1) % 4 ==> r[i] != ','
  {
  }

  lemma LocaliseAppend(a: string, b: string)
    ensures Localise(a + b) == Localise(a) + Localise(b)
  {
  }

  /** Localising a grouped rendering keeps the commas and turns its digits Persian. */
  lemma LocaliseGrouped(g: string)
    requires ThousandsGrouped(g, PyInt.IsAsciiDigit)
    ensures ThousandsGrouped(Localise(g), IsPersianDigit)
    ensures forall i :: 0 <= i < |g| ==> Localise(g)[i] != '-'
  {
    var lg := Localise(g);
    forall i | 0 <= i < |g|
      ensures (lg[i] == ',' <==> g[i] == ',') && (lg[i] != ',' ==> IsPersianDigit(lg[i]))
      ensures lg[i] != '-'
    {
      if PyInt.IsAsciiDigit(g[i]) {
        DigitTables(AsciiValue(g[i]));
      }
    }
  }

  /**
   * `format_amount` of an integer: a `-` first exactly when the integer is
   * negative and nowhere else, then thousands groups in Persian digits.
   */
  lemma FormatAmountShape(n: int)
    ensures var r := Localise(Grouped(n));
      && (forall i :: 0 <= i < |r| && r[i] == '-' ==> i == 0 && n < 0)
      && (n < 0 ==> r[0] == '-' && ThousandsGrouped(r[1..], IsPersianDigit))
      && (n >= 0 ==> ThousandsGrouped(r, IsPersianDigit))
  {
    var m := if n < 0 then -n else n;
    var g := GroupThousands(PyInt.NatDigits(m));
    GroupThousandsShape(PyInt.NatDigits(m));
    LocaliseGrouped(g);
    var sign := if n < 0 then "-" else "";
    assert Grouped(n) == sign + g;
    LocaliseAppend(sign, g);
    assert Localise(sign) == sign;
    var r := Localise(Grouped(n));
    assert r == sign + Localise(g);
    if n < 0 {
      assert r[1..] == Localise(g);
    }
  }

  lemma {:induction false} RemoveCommasAppend(a: string, b: string)
    ensures RemoveCommas(a + b) == RemoveCommas(a) + RemoveCommas(b)
  {
    if b != [] {
      assert (a + b)[..|a + b| - 1] == a + b[..|b| - 1];
      RemoveCommasAppend(a, b[..|b| - 1]);
    } else {
      assert a + b == a;
    }
  }

  lemma {:induction false} RemoveCommasNone(s: string)
    requires forall i :: 0 <= i < |s| ==> s[i] != ','
    ensures RemoveCommas(s) == s
  {
    if s != [] {
      RemoveCommasNone(s[..|s| - 1]);
    }
  }

  lemma {:induction false} RemoveCommasGroups(ds: string)
    requires ds != [] && forall i :: 0 <= i < |ds| ==> PyInt.IsAsciiDigit(ds[i])
    ensures RemoveCommas(GroupThousands(ds)) == ds
  {
    if |ds| <= 3 {
      RemoveCommasNone(ds);
    } else {
      var p := ds[..|ds| - 3];
      var tail := ds[|ds| - 3..];
      RemoveCommasGroups(p);
      RemoveCommasJoin(GroupThousands(p), tail, GroupThousands(ds));
      assert ds == p + tail;
    }
  }

  /** Deleting the commas from `g`, a comma and comma-free `t` deletes those of `g` and the separator. */
  lemma RemoveCommasJoin(g: string, t: string, r: string)
    requires forall i :: 0 <= i < |t| ==> t[i] != ','
    requires r == g + "," + t
    ensures RemoveCommas(r) == RemoveCommas(g) + t
  {
    RemoveCommasAppend(g + ",", t);
    RemoveCommasAppend(g, ",");
    assert RemoveCommas(",") == "" by { assert ","[..0] == ""; }
    RemoveCommasNone(t);
  }

  lemma {:induction false} RemoveCommasLocalise(s: string)
    ensures RemoveCommas(Localise(s)) == Localise(RemoveCommas(s))
  {
    if s != [] {
      var p := s[..|s| - 1];
      RemoveCommasLocalise(p);
      assert Localise(s)[..|s| - 1] == Localise(p);
      var last := if s[|s| - 1] == ',' then "" else [s[|s| - 1]];
      assert Localise(RemoveCommas(p) + last) == Localise(RemoveCommas(p)) + Localise(last);
    }
  }

  lemma RemoveCommasGrouped(n: int)
    ensures RemoveCommas(Grouped(n)) == PyInt.DecimalString(n)
  {
    var ds := PyInt.NatDigits(if n < 0 then -n else n);
    var sign := if n < 0 then "-" else "";
    var g := GroupThousands(ds);
    assert Grouped(n) == sign + g;
    assert PyInt.DecimalString(n) == sign + ds;
    RemoveCommasGroups(ds);
    RemoveCommasAppend(sign, g);
    assert RemoveCommas(sign) == sign by {
      if n < 0 { assert sign[..0] == ""; }
    }
  }

  lemma DecimalStringAscii(n: int)
    ensures forall i :: 0 <= i < |PyInt.DecimalString(n)| ==> !IsPersianDigit(PyInt.DecimalString(n)[i])
  {
    var d := PyInt.DecimalString(n);
    if n < 0 {
      var ds := PyInt.NatDigits(-n);
      forall i | 0 < i < |d| ensures !IsPersianDigit(d[i]) {
        assert d[i] == ds[i - 1];
      }
    }
  }

  /**
   * Deleting the commas from `format_amount(n)` and reading the Persian
   * digits back as ASCII gives `str(n)`.
   */
  lemma FormatAmountRoundTrip(n: int)
    ensures FormatAmount(IntValue(n)) == TextValue(Localise(Grouped(n)))
    ensures Delocalise(RemoveCommas(Localise(Grouped(n)))) == PyInt.DecimalString(n)
  {
    RemoveCommasGrouped(n);
    RemoveCommasLocalise(Grouped(n));
    DecimalStringAscii(n);
    DelocaliseLocalise(PyInt.DecimalString(n));
  }

  lemma LocalisedRun(ds: string)
    requires ds != [] && forall i :: 0 <= i < |ds| ==> PyInt.IsAsciiDigit(ds[i])
    ensures PyInt.IsDigitRun(Localise(ds))
    ensures PyInt.RunValue(Localise(ds)) == PyInt.RunValue(ds)
  {
    var l := Localise(ds);
    forall i | 0 <= i < |ds|
      ensures PyInt.IsDecimalDigit(ds[i]) && PyInt.IsDecimalDigit(l[i]) && PyInt.DigitValue(l[i]) == PyInt.DigitValue(ds[i])
    {
      DigitTables(AsciiValue(ds[i]));
    }
    PyInt.RunValueSameDigits(ds, l);
  }

  /** A minus sign followed by the Persian digits of `m` reads back as `-m`. */
  lemma ParseMinusLocalised(s: string, m: nat)
    requires s == "-" + Localise(PyInt.NatDigits(m))
    ensures PyInt.ParseInt(s) == Some(-(m as int))
  {
    var ds := PyInt.NatDigits(m);
    LocalisedRun(ds);
    PyInt.RunValueOfNatDigits(m);
    PyInt.ParseNegativeRun(s, Localise(ds), m);
  }

  /** The Persian rendering of a negative `str(n)` reads back as `n`. */
  lemma ParseLocalisedNegative(n: int)
    requires n < 0
    ensures PyInt.ParseInt(Localise(PyInt.DecimalString(n))) == Some(n)
  {
    var ds := PyInt.NatDigits(-n);
    assert Localise(PyInt.DecimalString(n)) == "-" + Localise(ds) by {
      assert PyInt.DecimalString(n) == "-" + ds;
      LocaliseAppend("-", ds);
      assert Localise("-") == "-";
    }
    ParseMinusLocalised(Localise(PyInt.DecimalString(n)), -n);
  }

  /** The Persian rendering of a non-negative `str(n)` reads back as `n`. */
  lemma ParseLocalisedNonNegative(n: int)
    requires n >= 0
    ensures PyInt.ParseInt(Localise(PyInt.DecimalString(n))) == Some(n)
  {
    var ds := PyInt.NatDigits(n);
    LocalisedRun(ds);
    PyInt.RunValueOfNatDigits(n);
    assert PyInt.DecimalString(n) == ds;
    PyInt.ParseRun(Localise(ds));
  }

  /** `int()` reads the Persian rendering of `str(n)` back as `n`. */
  lemma ParseLocalised(n: int)
    ensures PyInt.ParseInt(Localise(PyInt.DecimalString(n))) == Some(n)
  {
    if n < 0 {
      ParseLocalisedNegative(n);
    } else {
      ParseLocalisedNonNegative(n);
    }
  }

  lemma {:induction false} NatDigitsLength(m: nat)
    ensures m < 1000 ==> |PyInt.NatDigits(m)| <= 3
    ensures m >= 1000 ==> |PyInt.NatDigits(m)| >= 4
  {
    if m >= 10 {
      NatDigitsLength(m / 10);
      if m >= 1000 {
        assert m / 10 >= 100;
        assert |PyInt.NatDigits(m / 10)| >= 3 by {
          var a := m / 10;
          assert PyInt.NatDigits(a) == PyInt.NatDigits(a / 10) + [PyInt.DigitChar(a % 10)];
          assert a / 10 >= 10;
        }
      } else {
        assert m / 10 < 100;
        assert |PyInt.NatDigits(m / 10)| <= 2 by {
          var a := m / 10;
          if a >= 10 {
            assert a / 10 < 10;
          }
        }
      }
    }
  }

  /** A rendering with a comma in it is not something `int()` accepts. */
  lemma CommaDefeatsParse(t: string, i: int)
    requires 0 <= i < |t| && t[i] == ','
    ensures PyInt.ParseInt(t).None?
  {
    if PyInt.ParseInt(t).Some? {
      PyInt.ParsedCharacters(t, i);
    }
  }

  /** Below a thousand there is no comma, and `int()` reads the Persian rendering back. */
  lemma SmallAmountReadsBack(n: int)
    requires -1000 < n < 1000
    ensures PyInt.ParseInt(Localise(Grouped(n))) == Some(n)
  {
    NatDigitsLength(if n < 0 then -n else n);
    assert Grouped(n) == PyInt.DecimalString(n);
    ParseLocalised(n);
  }

  /** From a thousand up the rendering holds a comma, which `int()` refuses. */
  lemma LargeAmountRefused(n: int)
    requires n <= -1000 || 1000 <= n
    ensures PyInt.ParseInt(Localise(Grouped(n))).None?
  {
    var m: nat := if n < 0 then -n else n;
    var ds := PyInt.NatDigits(m);
    NatDigitsLength(m);
    var sign := if n < 0 then "-" else "";
    var p := ds[..|ds| - 3];
    var k := |sign| + |GroupThousands(p)|;
    assert Grouped(n)[k] == ',' by {
      assert GroupThousands(ds) == GroupThousands(p) + "," + ds[|ds| - 3..];
      assert Grouped(n) == sign + GroupThousands(ds);
    }
    CommaDefeatsParse(Localise(Grouped(n)), k);
  }

  /**
   * `format_amount` is idempotent: below a thousand its Persian output reads
   * back as the same integer; from a thousand up the commas make `int()`
   * fail, so the text passes through unchanged.
   */
  lemma FormatAmountIdempotent(v: Value)
    ensures FormatAmount(FormatAmount(v)) == FormatAmount(v)
  {
    if IntOf(v).Some? {
      var n := IntOf(v).value;
      if -1000 < n < 1000 {
        SmallAmountReadsBack(n);
      } else {
        LargeAmountRefused(n);
      }
    }
  }

  /** The icon table of `category_icon`. */
  const Icons: map<string, string> := map[
    "Food" := "bi-cup-hot",
    "Transport" := "bi-car-front",
    "Shopping" := "bi-bag",
    "Housing" := "bi-house",
    "Salary" := "bi-briefcase",
    "Health" := "bi-heart-pulse",
    "Income" := "bi-wallet2",
    "Other" := "bi-three-dots"]

  /** The Persian-name table of `category_name_fa`. */
  const NamesFa: map<string, string> := map[
    "Food" := "خوراکی",
    "Transport" := "حمل و نقل",
    "Shopping" := "خرید",
    "Housing" := "مسکن",
    "Salary" := "حقوق",
    "Health" := "سلامت",
    "Income" := "درآمد",
    "Other" := "سایر"]

  /** `category_icon`: the listed icon, `bi-tag` for any other name. */
  function CategoryIcon(name: string): (icon: string)
    ensures name in Icons ==> icon == Icons[name]
    ensures icon == "bi-tag" <==> name !in Icons
  {
    if name in Icons then Icons[name] else "bi-tag"
  }

  /** `category_name_fa`: the listed Persian name, the name itself otherwise. */
  function CategoryNameFa(name: string): (r: string)
    ensures name in NamesFa ==> r == NamesFa[name] && r !in NamesFa
    ensures name !in NamesFa ==> r == name
  {
    if name in NamesFa then NamesFa[name] else name
  }

  /** No Persian name is itself a table key, so translating twice changes nothing. */
  lemma CategoryNameFaIdempotent(name: string)
    ensures CategoryNameFa(CategoryNameFa(name)) == CategoryNameFa(name)
  {
  }

  /** Both tables cover the same eight names. */
  lemma TablesAgree()
    ensures Icons.Keys == NamesFa.Keys
  {
  }
}
