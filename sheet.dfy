/**
 * Spreadsheet helpers that processor.py, main.py and
 * santillana_format/processor.py each define in the same words: the cell
 * as pandas reads it, the key normalisation, the filter by code, the
 * header-row detection and the grade-cell parser with its label table.
 */
module Sheet {
  import opened Text

  /** A sheet row: column name to cell text; a column missing from the map is an empty (NaN) cell. */
  type Row = map<seq<char>, seq<char>>

  /** A loaded sheet: its column names and its rows. */
  datatype Table = Table(columns: seq<seq<char>>, rows: seq<Row>)

  /** A cell after `fillna("")`. */
  function Value(row: Row, col: seq<char>): seq<char> {
    if col in row then row[col] else ""
  }

  /** A cell after `astype(str)` without `fillna`: an empty cell reads "nan". */
  function CellText(row: Row, col: seq<char>): seq<char> {
    if col in row then row[col] else "nan"
  }

  // ------------------------------------------------------------ normalisation

  /** `_normalize_key`: accents folded, padding stripped, upper-cased. */
  function NormalizeKey(s: seq<char>): (r: seq<char>)
    ensures forall i :: 0 <= i < |r| ==> !IsLower(r[i]) && FoldMark(r[i]) == r[i]
    ensures r != [] ==> !IsSpace(r[0]) && !IsSpace(r[|r| - 1])
  {
    var f := FoldMarks(s);
    var t := Strip(f);
    forall i | 0 <= i < |f|
      ensures FoldMark(f[i]) == f[i]
    {
      FoldMarkIdempotent(s[i]);
    }
    StripKeepsUnmarked(f);
    forall i | 0 <= i < |t|
      ensures FoldMark(UpperChar(t[i])) == UpperChar(t[i])
    {
      UpperKeepsUnmarked(t[i]);
    }
    Upper(t)
  }

  lemma FoldMarkIdempotent(c: char)
    ensures FoldMark(FoldMark(c)) == FoldMark(c)
  {
  }

  lemma UpperKeepsUnmarked(c: char)
    requires FoldMark(c) == c
    ensures FoldMark(UpperChar(c)) == UpperChar(c)
  {
  }

  /** Strip keeps a contiguous stretch of its input, so it keeps text free of marks. */
  lemma StripKeepsUnmarked(s: seq<char>)
    requires forall i :: 0 <= i < |s| ==> FoldMark(s[i]) == s[i]
    ensures forall i :: 0 <= i < |Strip(s)| ==> FoldMark(Strip(s)[i]) == Strip(s)[i]
  {
    var t := TrimStart(s);
    TrimStartShape(s);
    TrimEndShape(t);
    assert Strip(s) == t[..|Strip(s)|];
  }

  /** A normalised key is its own normalisation. */
  lemma NormalizeKeyIdempotent(s: seq<char>)
    ensures NormalizeKey(NormalizeKey(s)) == NormalizeKey(s)
  {
    var r := NormalizeKey(s);
    assert FoldMarks(r) == r;
    StripUnpadded(r);
    UpperOfNoLower(r);
  }

  /** Text of digits, capitals and spaces, unpadded, is already normalised. */
  lemma NormalizeKeyOfPlain(x: seq<char>)
    requires forall i :: 0 <= i < |x| ==> IsDigit(x[i]) || IsUpper(x[i]) || x[i] == ' '
    requires x != [] ==> x[0] != ' ' && x[|x| - 1] != ' '
    ensures NormalizeKey(x) == x
  {
    assert FoldMarks(x) == x;
    StripUnpadded(x);
    UpperOfNoLower(x);
  }

  // ------------------------------------------------------------ filtrar_codigo

  /** The test of `filtrar_codigo`: the row's code cell, stripped, equals the stripped code. */
  predicate HasCode(row: Row, col: seq<char>, codigo: seq<char>) {
    Strip(CellText(row, col)) == Strip(codigo)
  }

  /** The rows that carry the code, in sheet order. */
  function RowsWithCode(rows: seq<Row>, col: seq<char>, codigo: seq<char>): (r: seq<Row>)
    ensures |r| <= |rows|
  {
    if rows == [] then []
    else if HasCode(rows[0], col, codigo) then [rows[0]] + RowsWithCode(rows[1..], col, codigo)
    else RowsWithCode(rows[1..], col, codigo)
  }

  /** The outcome of `filtrar_codigo`: the KeyError naming the absent column, or the kept rows. */
  datatype Filtered = NoSuchColumn(col: seq<char>, available: seq<seq<char>>) | Kept(table: Table)

  function FilterCode(t: Table, codigo: seq<char>, col: seq<char>): (r: Filtered)
    ensures r.NoSuchColumn? <==> col !in t.columns
    ensures r.Kept? ==> r.table.columns == t.columns
  {
    if col !in t.columns then NoSuchColumn(col, t.columns)
    else Kept(Table(t.columns, RowsWithCode(t.rows, col, codigo)))
  }

  /** The kept rows are a subsequence of the sheet, and a row is kept iff it carries the code. */
  lemma {:induction false} RowsWithCodeMeaning(rows: seq<Row>, col: seq<char>, codigo: seq<char>)
    ensures IsSubsequence(RowsWithCode(rows, col, codigo), rows)
    ensures forall row :: row in RowsWithCode(rows, col, codigo) <==> row in rows && HasCode(row, col, codigo)
  {
    if rows != [] {
      RowsWithCodeMeaning(rows[1..], col, codigo);
      var r := RowsWithCode(rows[1..], col, codigo);
      if HasCode(rows[0], col, codigo) {
        assert ([rows[0]] + r)[1..] == r;
      } else {
        SubsequenceOfTail(r, rows);
      }
      assert rows == [rows[0]] + rows[1..];
    }
  }

  /** Filtering the filtered rows again by the same code keeps all of them. */
  lemma {:induction false} RowsWithCodeIdempotent(rows: seq<Row>, col: seq<char>, codigo: seq<char>)
    ensures RowsWithCode(RowsWithCode(rows, col, codigo), col, codigo) == RowsWithCode(rows, col, codigo)
  {
    if rows != [] {
      RowsWithCodeIdempotent(rows[1..], col, codigo);
      var r := RowsWithCode(rows[1..], col, codigo);
      if HasCode(rows[0], col, codigo) {
        assert ([rows[0]] + r)[1..] == r;
      }
    }
  }

  /** `filtrar_codigo` is idempotent: filtering its result by the same code changes nothing. */
  lemma FilterCodeIdempotent(t: Table, codigo: seq<char>, col: seq<char>)
    requires FilterCode(t, codigo, col).Kept?
    ensures FilterCode(FilterCode(t, codigo, col).table, codigo, col) == FilterCode(t, codigo, col)
  {
    RowsWithCodeIdempotent(t.rows, col, codigo);
  }

  // ------------------------------------------------------------ header row

  /** A raw sheet row read without headers; `None` is an empty cell. */
  type RawRow = seq<Option<seq<char>>>

  /** `EXPECTED_HEADERS`, lower-cased. */
  const ExpectedHeadersLower: set<seq<char>> := {
    "crm", "institucion", "nivel educativo", "grado",
    "asignatura producto", "producto", "plataforma", "razon estado"}

  /** How many leading rows the detection looks at (`df_raw.head(30)`). */
  const ScanLimit: nat := 30

  /** The header names looked for: the code column's and the expected ones, lower-cased. */
  function Candidates(col: seq<char>): set<seq<char>> {
    {Lower(col)} + ExpectedHeadersLower
  }

  /** The distinct non-empty cells of a row, stripped and lower-cased. */
  function RowValues(row: RawRow): set<seq<char>> {
    set i | 0 <= i < |row| && row[i].Some? :: Lower(Strip(row[i].value))
  }

  /** How many header names a row holds. */
  function Hits(row: RawRow, cands: set<seq<char>>): nat {
    |RowValues(row) * cands|
  }

  /** The hit count of every row. */
  function HitCounts(rows: seq<RawRow>, cands: set<seq<char>>): (r: seq<nat>)
    ensures |r| == |rows| && forall j :: 0 <= j < |rows| ==> r[j] == Hits(rows[j], cands)
  {
    seq(|rows|, j requires 0 <= j < |rows| => Hits(rows[j], cands))
  }

  /** The scan's running best: the first position with the highest count (none while every count is zero), and that count. */
  function Best(counts: seq<nat>): (Option<nat>, nat) {
    if counts == [] then (None, 0)
    else
      var prev := Best(counts[..|counts| - 1]);
      if counts[|counts| - 1] > prev.1 then (Some(|counts| - 1), counts[|counts| - 1]) else prev
  }

  function Head(rows: seq<RawRow>): seq<RawRow> {
    if |rows| <= ScanLimit then rows else rows[..ScanLimit]
  }

  /** `_detectar_fila_encabezado`: the best row of the first thirty, when it holds at least three header names. */
  function HeaderRow(rows: seq<RawRow>, col: seq<char>): Option<nat> {
    var best := Best(HitCounts(Head(rows), Candidates(col)));
    if best.1 >= 3 then best.0 else None
  }

  method DetectHeaderRow(rows: seq<RawRow>, col: seq<char>) returns (r: Option<nat>)
    ensures r == HeaderRow(rows, col)
  {
    var cands := Candidates(col);
    var head := Head(rows);
    ghost var counts := HitCounts(head, cands);
    var best: Option<nat> := None;
    var hits: nat := 0;
    for k := 0 to |head|
      invariant best == Best(counts[..k]).0
      invariant hits == Best(counts[..k]).1
    {
      assert counts[..k + 1][..k] == counts[..k];
      var valores := RowValues(head[k]);
      var aciertos := |valores * cands|;
      if aciertos > hits {
        best, hits := Some(k), aciertos;
      }
    }
    assert counts[..|head|] == counts;
    r := if hits >= 3 then best else None;
  }

  /** Position `b` holds the highest count, and no earlier position holds as much. */
  predicate EarliestMax(counts: seq<nat>, b: nat) {
    b < |counts| &&
    (forall j :: 0 <= j < |counts| ==> counts[j] <= counts[b]) &&
    (forall j :: 0 <= j < b ==> counts[j] < counts[b])
  }

  /**
   * The scan keeps the first position with the highest count, and none
   * while every count is zero.
   */
  lemma {:induction false} BestMeaning(counts: seq<nat>)
    ensures forall j :: 0 <= j < |counts| ==> counts[j] <= Best(counts).1
    ensures Best(counts).0.None? <==> Best(counts).1 == 0
    ensures Best(counts).0.Some? ==>
      EarliestMax(counts, Best(counts).0.value) && counts[Best(counts).0.value] == Best(counts).1
  {
    if counts != [] {
      var init := counts[..|counts| - 1];
      BestMeaning(init);
      assert forall j :: 0 <= j < |init| ==> counts[j] == init[j];
    }
  }

  /**
   * The detected header row is among the first thirty, holds at least three
   * header names and is the earliest row holding the most; none is detected
   * iff every one of those rows holds fewer than three.
   */
  lemma HeaderRowMeaning(rows: seq<RawRow>, col: seq<char>)
    ensures var counts := HitCounts(Head(rows), Candidates(col)); var r := HeaderRow(rows, col);
      (r.Some? ==> r.value < ScanLimit && EarliestMax(counts, r.value) && counts[r.value] >= 3) &&
      (r.None? <==> forall j :: 0 <= j < |counts| ==> counts[j] < 3)
  {
    BestMeaning(HitCounts(Head(rows), Candidates(col)));
  }

  // ------------------------------------------------------------ grade cells

  /** The level word a grade cell names. */
  datatype LevelWord = PrimariaWord | SecundariaWord

  /** The highest grade of a level. */
  function MaxGrade(w: LevelWord): nat {
    if w == PrimariaWord then 6 else 5
  }

  /** The grade labels of `_mapear_grado`. */
  function GradeLabel(w: LevelWord, n: nat): (r: seq<char>)
    ensures r != [] <==> 1 <= n <= MaxGrade(w)
  {
    match w
    case PrimariaWord =>
      if n == 1 then "Primer grado de primaria"
      else if n == 2 then "Segundo grado de primaria"
      else if n == 3 then "Tercer grado de primaria"
      else if n == 4 then "Cuarto grado de primaria"
      else if n == 5 then "Quinto grado de primaria"
      else if n == 6 then "Sexto grado de primaria"
      else ""
    case SecundariaWord =>
      if n == 1 then "Primer año de secundaria"
      else if n == 2 then "Segundo año de secundaria"
      else if n == 3 then "Tercer año de secundaria"
      else if n == 4 then "Cuarto año de secundaria"
      else if n == 5 then "Quinto año de secundaria"
      else ""
  }

  /** `(label, number)`: the number is kept up to the level's last grade and zeroed beyond it. */
  function GradeOf(w: LevelWord, n: nat): (seq<char>, nat) {
    (GradeLabel(w, n), if n <= MaxGrade(w) then n else 0)
  }

  /** A grade result names a grade iff its number is non-zero, and then the number is in range. */
  predicate WellFormedGrade(g: (seq<char>, nat)) {
    (g.0 != [] <==> g.1 != 0) && g.1 <= 6
  }

  lemma GradeOfWellFormed(w: LevelWord, n: nat)
    ensures WellFormedGrade(GradeOf(w, n))
    ensures GradeOf(w, n).1 != 0 ==> GradeOf(w, n).1 == n && n <= MaxGrade(w)
  {
  }

  /** The sign replacements `_mapear_grado` applies before normalising: `°` and U+FFFD become `º`. */
  function OrdinalSign(c: char): char {
    if c == '°' || c == '�' then 'º' else c
  }

  /** The normalised grade text the patterns are matched against. */
  function GradeText(v: seq<char>): seq<char> {
    NormalizeKey(seq(|v|, i requires 0 <= i < |v| => OrdinalSign(v[i])))
  }

  /** The leading run of digits. */
  function DigitRun(s: seq<char>): (r: seq<char>)
    ensures |r| <= |s| && r == s[..|r|] && AllDigits(r)
    ensures |r| < |s| ==> !IsDigit(s[|r|])
  {
    if s != [] && IsDigit(s[0]) then [s[0]] + DigitRun(s[1..]) else []
  }

  /** The text of a level word. */
  function WordText(w: LevelWord): seq<char> {
    if w == PrimariaWord then "PRIMARIA" else "SECUNDARIA"
  }

  /** The level word a text is exactly, if any. */
  function WordOf(s: seq<char>): (r: Option<LevelWord>)
    ensures r.Some? ==> s == WordText(r.value)
  {
    if s == "PRIMARIA" then Some(PrimariaWord)
    else if s == "SECUNDARIA" then Some(SecundariaWord)
    else None
  }

  /** What follows the number: blanks, an optional `º` and blanks removed. */
  function LevelPart(rest: seq<char>): seq<char> {
    var r1 := TrimStart(rest);
    TrimStart(if r1 != [] && r1[0] == 'º' then r1[1..] else r1)
  }

  /**
   * `^(\d+)\s*º?\s*(PRIMARIA|SECUNDARIA)$`: the digits, the level word, and
   * what lies between them.
   */
  function StrictMatch(t: seq<char>): Option<(nat, LevelWord)> {
    var d := DigitRun(t);
    if d == [] then None
    else
      match WordOf(LevelPart(t[|d|..]))
      case None => None
      case Some(w) => Some((DigitsValue(d), w))
  }

  /** The text between the number and the level word is blanks, an optional `º`, blanks. */
  lemma LevelPartParts(rest: seq<char>) returns (s1: seq<char>, o: seq<char>, s2: seq<char>)
    ensures IsBlank(s1) && (o == [] || o == "º") && IsBlank(s2)
    ensures rest == s1 + o + s2 + LevelPart(rest)
  {
    var r1 := TrimStart(rest);
    s1 := BlankPrefix(rest);
    o := if r1 != [] && r1[0] == 'º' then "º" else [];
    var r2 := if r1 != [] && r1[0] == 'º' then r1[1..] else r1;
    assert r1 == o + r2;
    s2 := BlankPrefix(r2);
    ConcatFour(s1, o, s2, TrimStart(r2));
  }

  /** The blanks `TrimStart` removes. */
  lemma BlankPrefix(x: seq<char>) returns (s: seq<char>)
    ensures IsBlank(s) && x == s + TrimStart(x)
  {
    TrimStartShape(x);
    s := x[..|x| - |TrimStart(x)|];
    assert x == s + x[|s|..];
  }

  lemma ConcatFour<T>(a: seq<T>, b: seq<T>, c: seq<T>, d: seq<T>)
    ensures a + (b + (c + d)) == a + b + c + d
  {
  }

  /**
   * A strict match reads digits, blanks, an optional `º`, blanks and the
   * level word, and nothing else.
   */
  lemma StrictMatchParts(t: seq<char>) returns (s1: seq<char>, o: seq<char>, s2: seq<char>)
    requires StrictMatch(t).Some?
    ensures IsBlank(s1) && (o == [] || o == "º") && IsBlank(s2)
    ensures t == DigitRun(t) + s1 + o + s2 + WordText(StrictMatch(t).value.1)
    ensures StrictMatch(t).value.0 == DigitsValue(DigitRun(t))
  {
    var d := DigitRun(t);
    var rest := t[|d|..];
    assert t == d + rest;
    s1, o, s2 := LevelPartParts(rest);
    ConcatFour(d, s1 + o, s2, LevelPart(rest));
    assert d + (s1 + o + s2 + LevelPart(rest)) == d + s1 + o + s2 + LevelPart(rest);
  }

  /** Digits, blanks and `º` make no letter. */
  lemma NumberPartChars(d: seq<char>, s1: seq<char>, o: seq<char>, s2: seq<char>)
    requires AllDigits(d) && IsBlank(s1) && (o == [] || o == "º") && IsBlank(s2)
    ensures var p := d + s1 + o + s2; forall i :: 0 <= i < |p| ==> IsDigit(p[i]) || IsSpace(p[i]) || p[i] == 'º'
  {
  }

  /** `_mapear_grado` of processor.py and main.py: only the strict pattern is accepted. */
  function StrictGrade(v: seq<char>): (seq<char>, nat) {
    match StrictMatch(GradeText(v))
    case None => ("", 0)
    case Some((n, w)) => GradeOf(w, n)
  }

  /** A grade written the canonical way, `<n> <LEVEL>`, reads back as that grade of that level. */
  lemma StrictGradeRoundTrip(n: nat, w: LevelWord)
    ensures StrictGrade(NatToString(n) + " " + WordText(w)) == GradeOf(w, n)
  {
    var word := WordText(w);
    assert forall i :: 0 <= i < |word| ==> IsUpper(word[i]);
    StrictGradeOfWord(n, w, word);
  }

  lemma StrictGradeOfWord(n: nat, w: LevelWord, word: seq<char>)
    requires word != [] && forall i :: 0 <= i < |word| ==> IsUpper(word[i])
    requires WordOf(word) == Some(w)
    ensures StrictGrade(NatToString(n) + " " + word) == GradeOf(w, n)
  {
    var x := NatToString(n) + " " + word;
    assert forall i :: 0 <= i < |x| ==> IsDigit(x[i]) || IsUpper(x[i]) || x[i] == ' ';
    GradeTextOfPlain(x);
    StrictMatchOfWord(n, w, word);
  }

  /** Text of digits, capitals and spaces, unpadded, is its own grade text. */
  lemma GradeTextOfPlain(x: seq<char>)
    requires forall i :: 0 <= i < |x| ==> IsDigit(x[i]) || IsUpper(x[i]) || x[i] == ' '
    requires x != [] ==> x[0] != ' ' && x[|x| - 1] != ' '
    ensures GradeText(x) == x
  {
    assert seq(|x|, i requires 0 <= i < |x| => OrdinalSign(x[i])) == x;
    NormalizeKeyOfPlain(x);
  }

  lemma StrictMatchOfWord(n: nat, w: LevelWord, word: seq<char>)
    requires word != [] && IsUpper(word[0])
    requires WordOf(word) == Some(w)
    ensures StrictMatch(NatToString(n) + " " + word) == Some((n, w))
  {
    var d := NatToString(n);
    var rest := " " + word;
    DigitRunOfDigits(d, rest);
    assert d + " " + word == d + rest;
    assert (d + rest)[|d|..] == rest;
    TrimStartBlank(" ", word);
    NatToStringValue(n);
  }

  /** The leading digit run of digits followed by a non-digit is those digits. */
  lemma {:induction false} DigitRunOfDigits(d: seq<char>, rest: seq<char>)
    requires AllDigits(d) && (rest == [] || !IsDigit(rest[0]))
    ensures DigitRun(d + rest) == d
    decreases |d|
  {
    if d == [] {
      assert d + rest == rest;
    } else {
      assert (d + rest)[1..] == d[1..] + rest;
      DigitRunOfDigits(d[1..], rest);
    }
  }

  /** The first run of digits anywhere in the text (`re.search(r"\d+", ...)`). */
  function FirstDigitRun(s: seq<char>): (r: Option<seq<char>>)
    ensures r.Some? ==> r.value != [] && AllDigits(r.value)
  {
    if s == [] then None
    else if IsDigit(s[0]) then Some(DigitRun(s))
    else FirstDigitRun(s[1..])
  }

  /** The fallback of santillana_format/processor.py: `PRIMARIA` tested before `SECUNDARIA`, then the first number. */
  function LooseGrade(t: seq<char>): (seq<char>, nat) {
    var w := if IsInfix("PRIMARIA", t) then Some(PrimariaWord)
      else if IsInfix("SECUNDARIA", t) then Some(SecundariaWord)
      else None;
    match w
    case None => ("", 0)
    case Some(level) =>
      match FirstDigitRun(t)
      case None => ("", 0)
      case Some(d) => GradeOf(level, DigitsValue(d))
  }

  /** `_mapear_grado` of santillana_format/processor.py: the strict pattern first, the fallback otherwise. */
  function LenientGrade(v: seq<char>): (seq<char>, nat) {
    var t := GradeText(v);
    match StrictMatch(t)
    case Some((n, w)) => GradeOf(w, n)
    case None => LooseGrade(t)
  }

  /** Both grade parsers give well-formed results: a label iff a number, at most 6. */
  lemma GradesWellFormed(v: seq<char>)
    ensures WellFormedGrade(StrictGrade(v)) && WellFormedGrade(LenientGrade(v))
  {
    var t := GradeText(v);
    match StrictMatch(t) {
      case Some((n, w)) => GradeOfWellFormed(w, n);
      case None =>
        if IsInfix("PRIMARIA", t) || IsInfix("SECUNDARIA", t) {
          match FirstDigitRun(t) {
            case None =>
            case Some(d) =>
              GradeOfWellFormed(if IsInfix("PRIMARIA", t) then PrimariaWord else SecundariaWord, DigitsValue(d));
          }
        }
    }
  }

  /** A level word read by the strict pattern occurs in the text. */
  lemma StrictWordOccurs(t: seq<char>)
    requires StrictMatch(t).Some?
    ensures IsInfix(WordText(StrictMatch(t).value.1), t)
  {
    var s1, o, s2 := StrictMatchParts(t);
    var w := WordText(StrictMatch(t).value.1);
    var p := DigitRun(t) + s1 + o + s2;
    assert t == p + w;
    assert OccursAt(w, t, |p|);
  }

  /** Without the word PRIMARIA or SECUNDARIA the santillana parser gives `("", 0)`. */
  lemma LenientNeedsLevelWord(v: seq<char>)
    requires !IsInfix("PRIMARIA", GradeText(v)) && !IsInfix("SECUNDARIA", GradeText(v))
    ensures LenientGrade(v) == ("", 0)
  {
    var t := GradeText(v);
    if StrictMatch(t).Some? {
      StrictWordOccurs(t);
      assert false;
    }
  }

  /**
   * The fallback alone reads every text the strict pattern accepts the same
   * way, so the strict branch of the santillana parser never changes a result.
   */
  lemma LooseAgreesWithStrict(t: seq<char>)
    requires StrictMatch(t).Some?
    ensures LooseGrade(t) == GradeOf(StrictMatch(t).value.1, StrictMatch(t).value.0)
  {
    var s1, o, s2 := StrictMatchParts(t);
    StrictWordOccurs(t);
    var d := DigitRun(t);
    assert FirstDigitRun(t) == Some(d);
    if StrictMatch(t).value.1 == SecundariaWord {
      NumberPartChars(d, s1, o, s2);
      NoCapitalP(d + s1 + o + s2, WordText(SecundariaWord), t);
    }
  }

  /** Digits, blanks, `º` and SECUNDARIA hold no `P`, so PRIMARIA does not occur in them. */
  lemma NoCapitalP(p: seq<char>, w: seq<char>, t: seq<char>)
    requires forall i :: 0 <= i < |p| ==> IsDigit(p[i]) || IsSpace(p[i]) || p[i] == 'º'
    requires w == "SECUNDARIA" && t == p + w
    ensures !IsInfix("PRIMARIA", t)
  {
    forall i | 0 <= i <= |t| - 8
      ensures !OccursAt("PRIMARIA", t, i)
    {
      if i < |p| {
        assert t[i] == p[i];
      } else {
        assert t[i] == w[i - |p|];
      }
      assert t[i..i + 8][0] == t[i];
    }
  }
}
