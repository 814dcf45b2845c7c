/**
 * The compact birth-date reading of the student comparison: a cell whose
 * decimal digits, with every other character dropped, are exactly eight
 * is read year first (YYYYMMDD) when that gives a real calendar date in
 * 1900..2099, and otherwise day first (DDMMYYYY) under the same
 * condition.
 */
module CompactDate {
  import opened Text

  /** A calendar date (`datetime.date`). */
  datatype Fecha = Fecha(year: nat, month: nat, day: nat)

  predicate IsLeap(y: nat) {
    y % 4 == 0 && (y % 100 != 0 || y % 400 == 0)
  }

  function DaysInMonth(y: nat, m: nat): nat
    requires 1 <= m <= 12
  {
    if m == 2 then (if IsLeap(y) then 29 else 28)
    else if m == 4 || m == 6 || m == 9 || m == 11 then 30
    else 31
  }

  /** The dates `datetime.date` accepts. */
  predicate ValidDate(f: Fecha) {
    1 <= f.year <= 9999 && 1 <= f.month <= 12 && 1 <= f.day <= DaysInMonth(f.year, f.month)
  }

  /** `_safe_date`: the date, or none when `datetime.date` would refuse it. */
  function SafeDate(y: nat, m: nat, d: nat): (r: Option<Fecha>)
    ensures r.Some? <==> ValidDate(Fecha(y, m, d))
    ensures r.Some? ==> r.value == Fecha(y, m, d)
  {
    if ValidDate(Fecha(y, m, d)) then Some(Fecha(y, m, d)) else None
  }

  /** A year a compact date may carry. */
  predicate InWindow(y: nat) {
    1900 <= y <= 2099
  }

  /** `_parse_compact_date`. */
  function ParseCompactDate(text: seq<char>): Option<Fecha> {
    ReadEight(Digits(text))
  }

  /** The reading of the digits of a compact cell. */
  function ReadEight(ds: seq<char>): (r: Option<Fecha>)
    requires AllDigits(ds)
    ensures r.Some? ==> |ds| == 8 && ValidDate(r.value) && InWindow(r.value.year)
  {
    if |ds| != 8 then None
    else
      var first := if InWindow(DigitsValue(ds[..4]))
                   then SafeDate(DigitsValue(ds[..4]), DigitsValue(ds[4..6]), DigitsValue(ds[6..]))
                   else None;
      if first.Some? then first
      else if InWindow(DigitsValue(ds[4..])) then SafeDate(DigitsValue(ds[4..]), DigitsValue(ds[2..4]), DigitsValue(ds[..2]))
      else None
  }

  function Pow10(k: nat): (p: nat)
    ensures p >= 1
  {
    if k == 0 then 1 else 10 * Pow10(k - 1)
  }

  /** `n` written with exactly `w` decimal digits, zero padded (`f"{n:0{w}d}"` for `n < 10^w`). */
  function Pad(n: nat, w: nat): (r: seq<char>)
    ensures |r| == w && AllDigits(r)
  {
    if w == 0 then [] else Pad(n / 10, w - 1) + [('0' as int + n % 10) as char]
  }

  /** Reading a padded number back gives the number. */
  lemma {:induction false} PadValue(n: nat, w: nat)
    requires n < Pow10(w)
    ensures DigitsValue(Pad(n, w)) == n
  {
    if w == 0 {
    } else {
      var p := Pad(n, w);
      assert n / 10 < Pow10(w - 1);
      PadValue(n / 10, w - 1);
      assert p[..|p| - 1] == Pad(n / 10, w - 1);
    }
  }

  /** The leading digits of a padded number are the padded leading part of the number. */
  lemma PadPrefix(n: nat, w: nat)
    requires w >= 1
    ensures Pad(n, w)[..w - 1] == Pad(n / 10, w - 1)
  {
  }

  /** A date written year, month, day, with a separator free of digits (possibly empty) between the parts. */
  function Ymd(f: Fecha, sep: seq<char>): seq<char> {
    Pad(f.year, 4) + sep + Pad(f.month, 2) + sep + Pad(f.day, 2)
  }

  /** A date written day, month, year. */
  function Dmy(f: Fecha, sep: seq<char>): seq<char> {
    Pad(f.day, 2) + sep + Pad(f.month, 2) + sep + Pad(f.year, 4)
  }

  predicate NoDigits(sep: seq<char>) {
    forall i :: 0 <= i < |sep| ==> !IsDigit(sep[i])
  }

  lemma {:induction false} DigitsOfParts(a: seq<char>, sep: seq<char>, b: seq<char>, c: seq<char>)
    requires AllDigits(a) && AllDigits(b) && AllDigits(c) && NoDigits(sep)
    ensures Digits(a + sep + b + sep + c) == a + b + c
  {
    DigitsOfDigits(a);
    DigitsOfDigits(b);
    DigitsOfDigits(c);
    DigitsOfNonDigits(sep);
    var x1 := a + sep;
    DigitsOfConcat(a, sep);
    assert Digits(x1) == a;
    var x2 := x1 + b;
    DigitsOfConcat(x1, b);
    assert Digits(x2) == a + b;
    var x3 := x2 + sep;
    DigitsOfConcat(x2, sep);
    assert Digits(x3) == a + b;
    DigitsOfConcat(x3, c);
  }

  /** Every date of 1900..2099 written year first is read back as that date. */
  lemma {:induction false} ParseCompactDateYmd(f: Fecha, sep: seq<char>)
    requires ValidDate(f) && InWindow(f.year) && NoDigits(sep)
    ensures ParseCompactDate(Ymd(f, sep)) == Some(f)
  {
    var ds := Pad(f.year, 4) + Pad(f.month, 2) + Pad(f.day, 2);
    DigitsOfParts(Pad(f.year, 4), sep, Pad(f.month, 2), Pad(f.day, 2));
    assert ds[..4] == Pad(f.year, 4) && ds[4..6] == Pad(f.month, 2) && ds[6..] == Pad(f.day, 2);
    PadValue(f.year, 4);
    PadValue(f.month, 2);
    PadValue(f.day, 2);
  }

  /** The first two digits of a year of 1900..2099 read as 19 or 20. */
  lemma CenturyDigits(y: nat)
    requires InWindow(y)
    ensures 19 <= DigitsValue(Pad(y, 4)[..2]) <= 20
  {
    PadPrefix(y, 4);
    PadPrefix(y / 10, 3);
    assert Pad(y, 4)[..2] == Pad(y / 10, 3)[..2];
    PadValue(y / 10 / 10, 2);
  }

  lemma ReadEightDmy(f: Fecha)
    requires ValidDate(f) && InWindow(f.year)
    ensures ReadEight(Pad(f.day, 2) + Pad(f.month, 2) + Pad(f.year, 4)) == Some(f)
  {
    var y := Pad(f.year, 4);
    var ds := Pad(f.day, 2) + Pad(f.month, 2) + y;
    assert ds[..2] == Pad(f.day, 2) && ds[2..4] == Pad(f.month, 2) && ds[4..] == y && ds[4..6] == y[..2];
    CenturyDigits(f.year);
    PadValue(f.year, 4);
    PadValue(f.month, 2);
    PadValue(f.day, 2);
  }

  /**
   * Every date of 1900..2099 written day first is read back as that date:
   * the year-first reading never succeeds on it, since its "month" would
   * be the century digits 19 or 20.
   */
  lemma {:induction false} ParseCompactDateDmy(f: Fecha, sep: seq<char>)
    requires ValidDate(f) && InWindow(f.year) && NoDigits(sep)
    ensures ParseCompactDate(Dmy(f, sep)) == Some(f)
  {
    DigitsOfParts(Pad(f.day, 2), sep, Pad(f.month, 2), Pad(f.year, 4));
    ReadEightDmy(f);
  }
}
