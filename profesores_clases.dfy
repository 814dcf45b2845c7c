/**
 * Teacher-to-class reconciliation (santillana_format/profesores_clases.py):
 * the class-name suffix grammar, course text normalisation, the level and
 * grade flags of a spreadsheet row, the catalog parse, and the matcher.
 * The planner that applies the matches lives in module ClasesPlanner.
 */
module ProfesoresClases {
  import opened Text

  /** Cell texts that mark a flag column as set, after trimming and upper-casing. */
  const TruthyValues: set<seq<char>> := {"SI", "S", "1", "X", "TRUE", "VERDADERO", "YES"}

  predicate IsLevelLetter(c: char) { c == 'I' || c == 'P' || c == 'S' }

  /** Every grade of a level: the wildcard a level column stands for. */
  function AllGrades(level: char): set<nat>
  {
    match level
    case 'I' => {1, 2, 3, 4, 5}
    case 'P' => {1, 2, 3, 4, 5, 6}
    case 'S' => {1, 2, 3, 4, 5}
    case _ => {}
  }

  /** Level columns and the letter each one stands for. */
  const LevelColumns: map<seq<char>, char> := map["Inicial" := 'I', "Primaria" := 'P', "Secundaria" := 'S']

  /** Grade columns and the (level, grade) pair each one stands for. */
  const GradeColumns: map<seq<char>, (char, nat)> := map[
    "I3" := ('I', 3), "I4" := ('I', 4), "I5" := ('I', 5),
    "P1" := ('P', 1), "P2" := ('P', 2), "P3" := ('P', 3),
    "P4" := ('P', 4), "P5" := ('P', 5), "P6" := ('P', 6),
    "S1" := ('S', 1), "S2" := ('S', 2), "S3" := ('S', 3),
    "S4" := ('S', 4), "S5" := ('S', 5)]

  // ---------------------------------------------------------------- flags

  /**
   * `_normalize_value`: stripped, accents folded (NFD without its combining
   * marks), stripped again and upper-cased.
   */
  function NormalizeValue(s: seq<char>): seq<char> {
    Upper(Strip(FoldMarks(Strip(s))))
  }

  /** Whether a flag cell is set. */
  function IsTruthy(v: Cell): (r: bool)
    ensures v.Null? || v.NotANumber? ==> !r
    ensures v.Flag? ==> r == v.b
    ensures v.Number? ==> r == (v.n != 0)
    ensures v.Str? ==> (r <==> NormalizeValue(v.s) in TruthyValues)
    ensures v.Str? && r ==> !IsBlank(v.s)
  {
    match v
    case Null => false
    case Flag(b) => b
    case Number(n) => n != 0
    case NotANumber => false
    case Str(s) =>
      StripEmptyIffBlank(s);
      NormalizeValue(s) in TruthyValues
  }

  /** A truthy word is recognised in any letter case, with or without accents, and with any blank padding. */
  lemma TruthyIgnoresCaseAndPadding(pre: seq<char>, w: seq<char>, post: seq<char>)
    requires IsBlank(pre) && IsBlank(post)
    requires Upper(FoldMarks(w)) in TruthyValues
    ensures IsTruthy(Str(pre + w + post))
  {
    var f := FoldMarks(w);
    assert w != [] && !IsSpace(f[0]) && !IsSpace(f[|f| - 1]) by {
      TruthyWordsAlphanumeric();
      var u := Upper(f);
      assert UpperChar(f[0]) == u[0] && UpperChar(f[|f| - 1]) == u[|u| - 1];
    }
    FoldMarkKeeps(w[0]);
    FoldMarkKeeps(w[|w| - 1]);
    StripPadded(pre, w, post);
    StripUnpadded(f);
  }

  /** `Sí`, with its accent, is a truthy word. */
  lemma TruthyAccentedSi()
    ensures IsTruthy(Str("Sí"))
  {
    var w := "Sí";
    assert FoldMarks(w) == "Si";
    assert Upper("Si") == "SI";
    TruthyIgnoresCaseAndPadding([], w, []);
    assert [] + w + [] == w;
  }

  /** The truthy words are non-empty and made of capital letters and digits only. */
  lemma TruthyWordsAlphanumeric()
    ensures forall u :: u in TruthyValues ==> u != [] && forall i :: 0 <= i < |u| ==> IsUpper(u[i]) || '0' <= u[i] <= '9'
  {
    forall u | u in TruthyValues
      ensures u != [] && forall i :: 0 <= i < |u| ==> IsUpper(u[i]) || '0' <= u[i] <= '9'
    {
      assert u == "SI" || u == "S" || u == "1" || u == "X" || u == "TRUE" || u == "VERDADERO" || u == "YES";
    }
  }

  // ---------------------------------------------------------------- class suffix

  /** The trailing `<grade><level><section>` or `<level><grade><section>` of a class name. */
  datatype Suffix = Suffix(grade: nat, level: char, section: char)

  /** A name the parser can handle: empty, or holding a non-blank character. */
  predicate ParsableName(name: seq<char>) {
    name == [] || !IsBlank(name)
  }

  /** The last whitespace-separated token of the name, reduced to letters and digits and upper-cased. */
  function CleanToken(name: seq<char>): (t: seq<char>)
    requires name != [] && !IsBlank(name)
    ensures forall i :: 0 <= i < |t| ==> IsAlnum(t[i]) && !IsLower(t[i])
  {
    TokensEmptyIff(name, IsSpace);
    var ts := Tokens(name, IsSpace);
    var u := Upper(AlnumOnly(ts[|ts| - 1]));
    assert forall i :: 0 <= i < |u| ==> IsAlnum(u[i]);
    u
  }

  /** `\d{1,2}[IPS][A-Z]`. */
  predicate GradeFirstShape(t: seq<char>) {
    (|t| == 3 || |t| == 4) && AllDigits(t[..|t| - 2])
    && IsLevelLetter(t[|t| - 2]) && IsUpper(t[|t| - 1])
  }

  /** `[IPS]\d{1,2}[A-Z]`. */
  predicate LevelFirstShape(t: seq<char>) {
    (|t| == 3 || |t| == 4) && IsLevelLetter(t[0])
    && AllDigits(t[1..|t| - 1]) && IsUpper(t[|t| - 1])
  }

  /** Decodes the class-name suffix; `None` when the last token has neither shape. */
  function ParseClassSuffix(name: seq<char>): (r: Option<Suffix>)
    requires ParsableName(name)
    ensures name == [] ==> r == None
    ensures name != [] ==> (r.Some? <==> GradeFirstShape(CleanToken(name)) || LevelFirstShape(CleanToken(name)))
    ensures r.Some? ==> IsLevelLetter(r.value.level) && IsUpper(r.value.section) && r.value.grade <= 99
  {
    if name == [] then None
    else
      var t := CleanToken(name);
      if t == [] then None
      else if GradeFirstShape(t) then
        var d := t[..|t| - 2];
        assert DigitsValue(d) <= 99 by { DigitsBelow(d); }
        Some(Suffix(DigitsValue(d), t[|t| - 2], t[|t| - 1]))
      else if LevelFirstShape(t) then
        var d := t[1..|t| - 1];
        assert DigitsValue(d) <= 99 by { DigitsBelow(d); }
        Some(Suffix(DigitsValue(d), t[0], t[|t| - 1]))
      else None
  }

  lemma DigitsBelow(d: seq<char>)
    requires AllDigits(d) && |d| <= 2
    ensures DigitsValue(d) <= 99
  {
    if |d| == 2 {
      assert d[..1] == [d[0]];
    }
  }

  /** The token a suffix is written as, grade first. */
  function GradeFirstToken(s: Suffix): seq<char> {
    NatToString(s.grade) + [s.level, s.section]
  }

  /** The token a suffix is written as, level first. */
  function LevelFirstToken(s: Suffix): seq<char> {
    [s.level] + NatToString(s.grade) + [s.section]
  }

  predicate ValidSuffix(s: Suffix) {
    s.grade <= 99 && IsLevelLetter(s.level) && IsUpper(s.section)
  }

  /** The cleaned last token of `prefix + w`, when the prefix ends in whitespace. */
  lemma CleanTokenOfLastWord(prefix: seq<char>, w: seq<char>)
    requires prefix == [] || IsSpace(prefix[|prefix| - 1])
    requires w != [] && forall i :: 0 <= i < |w| ==> IsAlnum(w[i]) && !IsLower(w[i])
    ensures prefix + w != [] && !IsBlank(prefix + w)
    ensures CleanToken(prefix + w) == w
  {
    assert (prefix + w)[|prefix|] == w[0];
    TokensOfConcat(prefix, w, IsSpace);
    WordLenOfPrefix(w, [], IsSpace);
    assert w + [] == w;
    assert w[|w|..] == [];
    assert Tokens(w, IsSpace) == [w];
    AlnumOnlyOfAlnum(w);
  }

  lemma {:induction false} AlnumOnlyOfAlnum(w: seq<char>)
    requires forall i :: 0 <= i < |w| ==> IsAlnum(w[i])
    ensures AlnumOnly(w) == w
    decreases |w|
  {
    if w != [] {
      AlnumOnlyOfAlnum(w[1..]);
    }
  }

  /** Writing a suffix grade first after a class title and parsing the name gives the suffix back. */
  lemma {:induction false} ParseGradeFirstRoundTrip(title: seq<char>, s: Suffix)
    requires title == [] || IsSpace(title[|title| - 1])
    requires ValidSuffix(s)
    ensures ParsableName(title + GradeFirstToken(s))
    ensures ParseClassSuffix(title + GradeFirstToken(s)) == Some(s)
  {
    var w := GradeFirstToken(s);
    CleanTokenOfLastWord(title, w);
    assert w[..|w| - 2] == NatToString(s.grade);
    NatToStringValue(s.grade);
  }

  /** Writing a suffix level first after a class title and parsing the name gives the suffix back. */
  lemma {:induction false} ParseLevelFirstRoundTrip(title: seq<char>, s: Suffix)
    requires title == [] || IsSpace(title[|title| - 1])
    requires ValidSuffix(s)
    ensures ParsableName(title + LevelFirstToken(s))
    ensures ParseClassSuffix(title + LevelFirstToken(s)) == Some(s)
  {
    var w := LevelFirstToken(s);
    CleanTokenOfLastWord(title, w);
    assert w[1..|w| - 1] == NatToString(s.grade);
    assert !GradeFirstShape(w) by {
      assert w[..|w| - 2][0] == s.level && !IsDigit(s.level);
    }
    assert LevelFirstShape(w);
    NatToStringValue(s.grade);
  }

  /** The grade digits of a suffix token do not start with a superfluous zero. */
  predicate NoLeadingZero(t: seq<char>) {
    |t| == 4 ==> (GradeFirstShape(t) ==> t[0] != '0') && (LevelFirstShape(t) ==> t[1] != '0')
  }

  /**
   * Conversely, a parsed suffix whose grade has no leading zero is exactly
   * the cleaned token, in the order it was written.
   */
  lemma ParsedSuffixIsToken(name: seq<char>)
    requires name != [] && !IsBlank(name)
    requires ParseClassSuffix(name).Some?
    requires NoLeadingZero(CleanToken(name))
    ensures var t := CleanToken(name); var s := ParseClassSuffix(name).value;
      t == GradeFirstToken(s) || t == LevelFirstToken(s)
  {
    var t := CleanToken(name);
    if GradeFirstShape(t) {
      GradeFirstBack(t);
    } else {
      LevelFirstBack(t);
    }
  }

  lemma GradeFirstBack(t: seq<char>)
    requires GradeFirstShape(t) && NoLeadingZero(t)
    ensures t == GradeFirstToken(Suffix(DigitsValue(t[..|t| - 2]), t[|t| - 2], t[|t| - 1]))
  {
    var d := t[..|t| - 2];
    DigitsValueRoundTrip(d);
    assert t == d + [t[|t| - 2], t[|t| - 1]];
  }

  lemma LevelFirstBack(t: seq<char>)
    requires LevelFirstShape(t) && NoLeadingZero(t)
    ensures t == LevelFirstToken(Suffix(DigitsValue(t[1..|t| - 1]), t[0], t[|t| - 1]))
  {
    var d := t[1..|t| - 1];
    DigitsValueRoundTrip(d);
    assert t == [t[0]] + d + [t[|t| - 1]];
  }

  // ---------------------------------------------------------------- course text

  /**
   * Course text as compared by the matcher: accents folded, then the runs of
   * letters and digits, upper-cased and joined by single spaces. Upper-casing
   * before splitting gives the same runs as the source's split-then-upper-case,
   * since ASCII upper-casing keeps letters letters.
   */
  function NormalizeCourse(s: seq<char>): (r: seq<char>)
    ensures forall i :: 0 <= i < |r| ==> r[i] == ' ' || (IsAlnum(r[i]) && !IsLower(r[i]))
  {
    var u := Upper(FoldMarks(s));
    var ts := Tokens(u, NotAlnum);
    TokensWellFormed(u, NotAlnum);
    TokensKeep(u, NotAlnum, c => !IsLower(c));
    JoinKeeps(ts, " ", c => c == ' ' || (IsAlnum(c) && !IsLower(c)));
    Join(ts, " ")
  }

  /** Normalising normalised course text changes nothing. */
  lemma NormalizeCourseIdempotent(s: seq<char>)
    ensures NormalizeCourse(NormalizeCourse(s)) == NormalizeCourse(s)
  {
    var n := NormalizeCourse(s);
    var u := Upper(FoldMarks(s));
    var ts := Tokens(u, NotAlnum);
    assert FoldMarks(n) == n by {
      forall i | 0 <= i < |n|
        ensures FoldMark(n[i]) == n[i]
      {
        if n[i] != ' ' {
          AlnumUnmarked(n[i]);
        }
      }
    }
    assert Upper(n) == n;
    TokensWellFormed(u, NotAlnum);
    TokensOfJoin(ts, ' ', NotAlnum);
  }

  /** Accents never matter: text and its accent-folded form normalise alike. */
  lemma NormalizeCourseFolds(s: seq<char>)
    ensures NormalizeCourse(FoldMarks(s)) == NormalizeCourse(s)
  {
    FoldMarksIdempotent(s);
  }

  // ---------------------------------------------------------------- course lists

  predicate IsCourseSeparator(c: char) { c == ';' || c == ',' }

  /** The stripped pieces that are not empty, in order. */
  function NonEmptyStripped(ps: seq<seq<char>>): (r: seq<seq<char>>)
    ensures forall k :: 0 <= k < |r| ==> r[k] != [] && !IsSpace(r[k][0]) && !IsSpace(r[k][|r[k]| - 1])
    ensures |r| <= |ps|
  {
    if ps == [] then []
    else
      var t := Strip(ps[0]);
      if t == [] then NonEmptyStripped(ps[1..]) else [t] + NonEmptyStripped(ps[1..])
  }

  /** A course name as a cell lists it: non-empty, unpadded, without `;` or `,`. */
  predicate IsCourseName(c: seq<char>) {
    c != [] && !IsSpace(c[0]) && !IsSpace(c[|c| - 1])
    && forall i :: 0 <= i < |c| ==> !IsCourseSeparator(c[i])
  }

  /** The courses of a cell: pieces between runs of `;` and `,`, stripped, empty ones dropped. */
  function SplitCourses(v: seq<char>): (r: seq<seq<char>>)
    ensures forall k :: 0 <= k < |r| ==> r[k] != [] && !IsSpace(r[k][0]) && !IsSpace(r[k][|r[k]| - 1])
  {
    if v == [] then [] else NonEmptyStripped(Tokens(v, IsCourseSeparator))
  }

  /** Listing courses separated by `;` and splitting the cell gives the courses back. */
  lemma {:induction false} SplitCoursesOfJoin(cs: seq<seq<char>>)
    requires forall k :: 0 <= k < |cs| ==> IsCourseName(cs[k])
    ensures SplitCourses(Join(cs, ";")) == cs
  {
    TokensOfJoin(cs, ';', IsCourseSeparator);
    NonEmptyStrippedOfCourses(cs);
    if cs != [] {
      assert cs[0] != [];
      JoinNonEmpty(cs, ";");
    }
  }

  lemma JoinNonEmpty(ps: seq<seq<char>>, glue: seq<char>)
    requires ps != [] && ps[0] != []
    ensures Join(ps, glue) != []
  {
  }

  lemma {:induction false} NonEmptyStrippedOfCourses(cs: seq<seq<char>>)
    requires forall k :: 0 <= k < |cs| ==> IsCourseName(cs[k])
    ensures NonEmptyStripped(cs) == cs
    decreases |cs|
  {
    if cs != [] {
      StripUnpadded(cs[0]);
      NonEmptyStrippedOfCourses(cs[1..]);
    }
  }

  // ---------------------------------------------------------------- persona id

  /** `personaId` of a cell: the integer of a number, the digits of text, nothing otherwise. */
  function ParsePersonaId(v: Cell): (r: Option<int>)
    ensures v.Null? || v.Flag? || v.NotANumber? ==> r == None
    ensures v.Number? ==> r == Some(v.n)
    ensures v.Str? ==> (r.Some? <==> Digits(v.s) != [])
    ensures v.Str? && r.Some? ==> r.value >= 0
  {
    match v
    case Null => None
    case Flag(_) => None
    case Number(n) => Some(n)
    case NotANumber => None
    case Str(s) =>
      var d := Digits(s);
      if d == [] then None else Some(DigitsValue(d))
  }

  /** An id written among non-digit text is read back. */
  lemma PersonaIdOfText(pre: seq<char>, n: nat, post: seq<char>)
    requires forall i :: 0 <= i < |pre| ==> !IsDigit(pre[i])
    requires forall i :: 0 <= i < |post| ==> !IsDigit(post[i])
    ensures ParsePersonaId(Str(pre + NatToString(n) + post)) == Some(n)
  {
    var d := NatToString(n);
    DigitsOfConcat(pre + d, post);
    DigitsOfConcat(pre, d);
    DigitsOfNonDigits(pre);
    DigitsOfNonDigits(post);
    DigitsOfDigits(d);
    assert Digits(pre + d + post) == d;
    NatToStringValue(n);
  }

  // ---------------------------------------------------------------- desired levels

  /** A spreadsheet row: canonical column name to cell text (`dtype=str`, blanks as ""). */
  type Row = map<seq<char>, seq<char>>

  function CellAt(row: Row, col: seq<char>): Cell {
    Str(if col in row then row[col] else "")
  }

  predicate GradeColumnsOnly(cols: seq<seq<char>>) {
    forall j :: 0 <= j < |cols| ==> cols[j] in GradeColumns
  }

  predicate LevelColumnsOnly(cols: seq<seq<char>>) {
    forall j :: 0 <= j < |cols| ==> cols[j] in LevelColumns
  }

  /** The (level, grade) pairs of the row's set grade columns. */
  function MarkedGrades(row: Row, gradeCols: seq<seq<char>>): set<(char, nat)>
  {
    if gradeCols == [] then {}
    else
      var col := gradeCols[|gradeCols| - 1];
      MarkedGrades(row, gradeCols[..|gradeCols| - 1])
        + if col in GradeColumns && IsTruthy(CellAt(row, col)) then {GradeColumns[col]} else {}
  }

  /** The level letters of the row's set level columns. */
  function MarkedLevels(row: Row, levelCols: seq<seq<char>>): set<char>
  {
    if levelCols == [] then {}
    else
      var col := levelCols[|levelCols| - 1];
      MarkedLevels(row, levelCols[..|levelCols| - 1])
        + if col in LevelColumns && IsTruthy(CellAt(row, col)) then {LevelColumns[col]} else {}
  }

  /** The map the grade-column pass builds, column by column. */
  function GradeMap(row: Row, gradeCols: seq<seq<char>>): map<char, set<nat>>
  {
    if gradeCols == [] then map[]
    else
      var m := GradeMap(row, gradeCols[..|gradeCols| - 1]);
      var col := gradeCols[|gradeCols| - 1];
      if col in GradeColumns && IsTruthy(CellAt(row, col)) then
        var (letter, grade) := GradeColumns[col];
        m[letter := (if letter in m then m[letter] else {}) + {grade}]
      else m
  }

  /** The map the level-column pass builds, column by column. */
  function LevelMap(row: Row, levelCols: seq<seq<char>>): map<char, set<nat>>
  {
    if levelCols == [] then map[]
    else
      var m := LevelMap(row, levelCols[..|levelCols| - 1]);
      var col := levelCols[|levelCols| - 1];
      if col in LevelColumns && IsTruthy(CellAt(row, col)) then
        m[LevelColumns[col] := AllGrades(LevelColumns[col])]
      else m
  }

  /** The grade pass holds exactly the marked (level, grade) pairs, and no empty grade set. */
  lemma {:induction false} GradeMapHoldsMarked(row: Row, gradeCols: seq<seq<char>>)
    ensures forall l, g :: (l in GradeMap(row, gradeCols) && g in GradeMap(row, gradeCols)[l])
                           <==> (l, g) in MarkedGrades(row, gradeCols)
    ensures forall l :: l in GradeMap(row, gradeCols) ==> GradeMap(row, gradeCols)[l] != {}
    ensures GradeMap(row, gradeCols) == map[] <==> MarkedGrades(row, gradeCols) == {}
  {
    if gradeCols != [] {
      var pre := gradeCols[..|gradeCols| - 1];
      var col := gradeCols[|gradeCols| - 1];
      GradeMapHoldsMarked(row, pre);
      if col in GradeColumns && IsTruthy(CellAt(row, col)) {
        var (letter, grade) := GradeColumns[col];
        AddGradeHoldsMarked(GradeMap(row, pre), MarkedGrades(row, pre), letter, grade);
      }
    }
    EmptyIffNoMarks(GradeMap(row, gradeCols), MarkedGrades(row, gradeCols));
  }

  /** Adding one marked grade to a map that holds the marked pairs keeps it holding them. */
  lemma AddGradeHoldsMarked(m: map<char, set<nat>>, marked: set<(char, nat)>, letter: char, grade: nat)
    requires forall l, g :: (l in m && g in m[l]) <==> (l, g) in marked
    requires forall l :: l in m ==> m[l] != {}
    ensures var m' := m[letter := (if letter in m then m[letter] else {}) + {grade}];
      && (forall l, g :: (l in m' && g in m'[l]) <==> (l, g) in marked + {(letter, grade)})
      && (forall l :: l in m' ==> m'[l] != {})
  {
  }

  /** A map with no empty grade set is empty exactly when it holds no pair. */
  lemma EmptyIffNoMarks(m: map<char, set<nat>>, marked: set<(char, nat)>)
    requires forall l, g :: (l in m && g in m[l]) <==> (l, g) in marked
    requires forall l :: l in m ==> m[l] != {}
    ensures m == map[] <==> marked == {}
  {
    if m != map[] {
      NoKeyEmpty(m);
      var l :| l in m;
      var g :| g in m[l];
      assert (l, g) in marked;
    }
    if marked != {} {
      var pair :| pair in marked;
      assert pair.0 in m;
    }
  }

  /** The level pass holds the marked levels, each with every grade of its level. */
  lemma {:induction false} LevelMapHoldsMarked(row: Row, levelCols: seq<seq<char>>)
    ensures LevelMap(row, levelCols).Keys == MarkedLevels(row, levelCols)
    ensures forall l :: l in LevelMap(row, levelCols) ==> LevelMap(row, levelCols)[l] == AllGrades(l)
  {
    if levelCols != [] {
      LevelMapHoldsMarked(row, levelCols[..|levelCols| - 1]);
    }
  }

  /** One more grade column adds its grade, when set, to the map of the columns before it. */
  lemma GradeMapStep(row: Row, gradeCols: seq<seq<char>>, i: nat)
    requires i < |gradeCols| && gradeCols[i] in GradeColumns
    ensures var m, col := GradeMap(row, gradeCols[..i]), gradeCols[i];
      GradeMap(row, gradeCols[..i + 1]) ==
        if IsTruthy(CellAt(row, col)) then
          var (letter, grade) := GradeColumns[col];
          m[letter := (if letter in m then m[letter] else {}) + {grade}]
        else m
  {
    assert gradeCols[..i + 1][..i] == gradeCols[..i];
  }

  /** One more level column adds its level, when set, to the map of the columns before it. */
  lemma LevelMapStep(row: Row, levelCols: seq<seq<char>>, i: nat)
    requires i < |levelCols| && levelCols[i] in LevelColumns
    ensures var m, col := LevelMap(row, levelCols[..i]), levelCols[i];
      LevelMap(row, levelCols[..i + 1]) ==
        if IsTruthy(CellAt(row, col)) then m[LevelColumns[col] := AllGrades(LevelColumns[col])] else m
  {
    assert levelCols[..i + 1][..i] == levelCols[..i];
  }

  /** The first pass: the set grade columns, as level letter to grade set. */
  method MarkGradeColumns(row: Row, gradeCols: seq<seq<char>>)
    returns (desired: map<char, set<nat>>, specific: bool)
    requires GradeColumnsOnly(gradeCols)
    ensures desired == GradeMap(row, gradeCols)
    ensures specific <==> desired != map[]
  {
    desired := map[];
    specific := false;
    var i := 0;
    while i < |gradeCols|
      invariant 0 <= i <= |gradeCols|
      invariant desired == GradeMap(row, gradeCols[..i])
      invariant specific <==> desired != map[]
    {
      GradeMapStep(row, gradeCols, i);
      if IsTruthy(CellAt(row, gradeCols[i])) {
        var (letter, grade) := GradeColumns[gradeCols[i]];
        var current := if letter in desired then desired[letter] else {};
        desired := desired[letter := current + {grade}];
        specific := true;
      }
      i := i + 1;
    }
    assert gradeCols[..i] == gradeCols;
  }

  /** The second pass: every grade of each level whose column is set. */
  method MarkLevelColumns(row: Row, levelCols: seq<seq<char>>) returns (desired: map<char, set<nat>>)
    requires LevelColumnsOnly(levelCols)
    ensures desired == LevelMap(row, levelCols)
  {
    desired := map[];
    var i := 0;
    while i < |levelCols|
      invariant 0 <= i <= |levelCols|
      invariant desired == LevelMap(row, levelCols[..i])
    {
      LevelMapStep(row, levelCols, i);
      if IsTruthy(CellAt(row, levelCols[i])) {
        var letter := LevelColumns[levelCols[i]];
        desired := desired[letter := AllGrades(letter)];
      }
      i := i + 1;
    }
    assert levelCols[..i] == levelCols;
  }

  /** The desired levels of a row, and whether they are grade-specific. */
  function DesiredLevels(row: Row, gradeCols: seq<seq<char>>, levelCols: seq<seq<char>>): (map<char, set<nat>>, bool)
  {
    var g := GradeMap(row, gradeCols);
    if g != map[] then (g, true) else (LevelMap(row, levelCols), false)
  }

  /**
   * Grade columns win: when one is set, the result is grade-specific and holds
   * exactly the marked (level, grade) pairs; otherwise each set level column
   * stands for every grade of its level.
   */
  lemma DesiredLevelsMeaning(row: Row, gradeCols: seq<seq<char>>, levelCols: seq<seq<char>>)
    ensures var (desired, specific) := DesiredLevels(row, gradeCols, levelCols);
      && (specific <==> MarkedGrades(row, gradeCols) != {})
      && (specific ==> forall l, g :: (l in desired && g in desired[l]) <==> (l, g) in MarkedGrades(row, gradeCols))
      && (!specific ==> desired.Keys == MarkedLevels(row, levelCols))
      && (!specific ==> forall l :: l in desired ==> desired[l] == AllGrades(l))
  {
    GradeMapHoldsMarked(row, gradeCols);
    LevelMapHoldsMarked(row, levelCols);
  }

  /**
   * Expands a row's flags into level letter to grade set, and whether it is
   * grade-specific: the grade columns first, the level columns only when no
   * grade column is set.
   */
  method ExtractDesiredLevels(row: Row, gradeCols: seq<seq<char>>, levelCols: seq<seq<char>>)
    returns (desired: map<char, set<nat>>, specific: bool)
    requires GradeColumnsOnly(gradeCols) && LevelColumnsOnly(levelCols)
    ensures (desired, specific) == DesiredLevels(row, gradeCols, levelCols)
  {
    desired, specific := MarkGradeColumns(row, gradeCols);
    if !specific {
      desired := MarkLevelColumns(row, levelCols);
    }
  }

  // ---------------------------------------------------------------- level summary

  /** The `L:*` or `L:g1,g2` part of one level of the summary. */
  ghost function LevelPart(level: char, grades: set<nat>, specific: bool): seq<char> {
    [level, ':'] + if !specific then "*" else Join(GradeTexts(SortedElems(set g | g in grades :: g as int)), ",")
  }

  function GradeTexts(gs: seq<int>): (r: seq<seq<char>>)
    ensures |r| == |gs|
  {
    if gs == [] then [] else [NatToString(if gs[0] < 0 then 0 else gs[0])] + GradeTexts(gs[1..])
  }

  /** The parts of the summary for the levels of `order` present in the map. */
  ghost function LevelParts(desired: map<char, set<nat>>, specific: bool, order: seq<char>): (ps: seq<seq<char>>)
    ensures |ps| <= |order|
  {
    if order == [] then []
    else
      (if order[0] in desired then [LevelPart(order[0], desired[order[0]], specific)] else [])
      + LevelParts(desired, specific, order[1..])
  }

  /** The human-readable summary of a row's levels, levels in sorted order. */
  ghost function FormatLevels(desired: map<char, set<nat>>, specific: bool): (r: seq<char>)
    requires forall l :: l in desired ==> IsLevelLetter(l)
    ensures desired == map[] <==> r == "sin niveles"
  {
    if desired == map[] then "sin niveles"
    else
      NoKeyEmpty(desired);
      var l :| l in desired;
      var ps := LevelParts(desired, specific, "IPS");
      assert ps != [] by {
        assert IsLevelLetter(l);
        assert l in "IPS";
        LevelPartsHas(desired, specific, "IPS", l);
      }
      LevelPartsHeads(desired, specific, "IPS");
      JoinHead(ps, " ");
      Join(ps, " ")
  }

  /** A map with no key is the empty map. */
  lemma NoKeyEmpty(m: map<char, set<nat>>)
    ensures (forall k :: k !in m) ==> m == map[]
  {
    if forall k :: k !in m {
      assert m == map[];
    }
  }

  lemma JoinHead(ps: seq<seq<char>>, glue: seq<char>)
    requires ps != [] && ps[0] != []
    ensures Join(ps, glue) != [] && Join(ps, glue)[0] == ps[0][0]
  {
  }

  lemma {:induction false} LevelPartsHas(desired: map<char, set<nat>>, specific: bool, order: seq<char>, l: char)
    requires l in desired && l in order
    ensures LevelParts(desired, specific, order) != []
    decreases |order|
  {
    if order[0] != l {
      LevelPartsHas(desired, specific, order[1..], l);
    }
  }

  lemma {:induction false} LevelPartsHeads(desired: map<char, set<nat>>, specific: bool, order: seq<char>)
    ensures forall k :: 0 <= k < |LevelParts(desired, specific, order)| ==>
      |LevelParts(desired, specific, order)[k]| >= 2 && LevelParts(desired, specific, order)[k][0] in order
      && LevelParts(desired, specific, order)[k][0] in desired
    decreases |order|
  {
    if order != [] {
      LevelPartsHeads(desired, specific, order[1..]);
    }
  }

  /**
   * With every level flagged by its level column, the summary lists the
   * three levels in order, each with the wildcard.
   */
  lemma FormatLevelsAllWildcards(desired: map<char, set<nat>>)
    requires desired.Keys == {'I', 'P', 'S'}
    ensures FormatLevels(desired, false) == "I:* P:* S:*"
  {
    assert "IPS"[1..] == "PS" && "PS"[1..] == "S" && "S"[1..] == [];
    assert LevelPart('S', desired['S'], false) == "S:*";
    assert LevelPart('P', desired['P'], false) == "P:*";
    assert LevelPart('I', desired['I'], false) == "I:*";
    assert LevelParts(desired, false, "S") == ["S:*"];
    assert LevelParts(desired, false, "PS") == ["P:*", "S:*"];
    assert LevelParts(desired, false, "IPS") == ["I:*", "P:*", "S:*"];
    assert ["I:*", "P:*", "S:*"][1..] == ["P:*", "S:*"];
    assert ["P:*", "S:*"][1..] == ["S:*"];
  }

  // ---------------------------------------------------------------- docentes

  /** One (persona, course) line of the spreadsheet, with its desired levels. */
  datatype Docente = Docente(
    row: int, personaId: int, curso: seq<char>, cursoNorm: seq<char>,
    desired: map<char, set<nat>>, gradeSpecific: bool)

  /** Whether a row is rejected: no usable persona id (absent or 0) or no course. */
  function RowInvalid(row: Row): bool {
    var pid := ParsePersonaId(CellAt(row, "persona_id"));
    var cursos := SplitCourses(Strip(CellAt(row, "curso").s));
    pid == None || pid == Some(0) || cursos == []
  }

  /** The docentes a valid row yields: one per course, all sharing the row's levels. */
  function RowDocentes(rowNum: int, pid: int, cursos: seq<seq<char>>, desired: map<char, set<nat>>, specific: bool): (ds: seq<Docente>)
    ensures |ds| == |cursos|
    ensures forall k :: 0 <= k < |ds| ==>
      ds[k].personaId == pid && ds[k].curso == cursos[k] && ds[k].cursoNorm == NormalizeCourse(cursos[k])
      && ds[k].desired == desired && ds[k].gradeSpecific == specific && ds[k].row == rowNum
  {
    if cursos == [] then []
    else
      [Docente(rowNum, pid, cursos[0], NormalizeCourse(cursos[0]), desired, specific)]
        + RowDocentes(rowNum, pid, cursos[1..], desired, specific)
  }

  /** The docentes row `i` yields: none when it is rejected, else one per course, with the row's number, persona and levels. */
  function RowLines(rows: seq<Row>, i: int, gradeCols: seq<seq<char>>, levelCols: seq<seq<char>>): (ds: seq<Docente>)
    requires 0 <= i < |rows|
    ensures |ds| == if RowInvalid(rows[i]) then 0 else |SplitCourses(Strip(CellAt(rows[i], "curso").s))|
    ensures forall d :: d in ds ==>
              RowValidFor(rows, d) && d.row == i + 2 && (d.desired, d.gradeSpecific) == DesiredLevels(rows[i], gradeCols, levelCols)
  {
    var row := rows[i];
    if RowInvalid(row) then []
    else
      var (desired, specific) := DesiredLevels(row, gradeCols, levelCols);
      var pid := ParsePersonaId(CellAt(row, "persona_id")).value;
      var cursos := SplitCourses(Strip(CellAt(row, "curso").s));
      RowDocentesValid(rows, i, i + 2, pid, cursos, desired, specific);
      RowDocentes(i + 2, pid, cursos, desired, specific)
  }

  /** The docentes of the first `n` rows, in row order. */
  function Loaded(rows: seq<Row>, n: nat, gradeCols: seq<seq<char>>, levelCols: seq<seq<char>>): seq<Docente>
    requires n <= |rows|
  {
    if n == 0 then [] else Loaded(rows, n - 1, gradeCols, levelCols) + RowLines(rows, n - 1, gradeCols, levelCols)
  }

  /** Docente `d` comes from a valid row of `rows` and carries that row's desired levels. */
  predicate FromRow(rows: seq<Row>, d: Docente, gradeCols: seq<seq<char>>, levelCols: seq<seq<char>>) {
    RowValidFor(rows, d) && (d.desired, d.gradeSpecific) == DesiredLevels(rows[d.row - 2], gradeCols, levelCols)
  }

  /** Every docente of `ds` comes from a valid row before row number `bound`, and carries its levels. */
  ghost predicate AllFromRows(rows: seq<Row>, ds: seq<Docente>, bound: int, gradeCols: seq<seq<char>>, levelCols: seq<seq<char>>) {
    forall d :: d in ds ==> d.row < bound && FromRow(rows, d, gradeCols, levelCols)
  }

  /** Number of rejected rows. */
  function InvalidRows(rows: seq<Row>): nat {
    if rows == [] then 0
    else InvalidRows(rows[..|rows| - 1]) + if RowInvalid(rows[|rows| - 1]) then 1 else 0
  }

  /** Number of (persona, course) lines the valid rows yield. */
  function CourseLines(rows: seq<Row>): nat {
    if rows == [] then 0
    else
      var row := rows[|rows| - 1];
      CourseLines(rows[..|rows| - 1])
        + if RowInvalid(row) then 0 else |SplitCourses(Strip(CellAt(row, "curso").s))|
  }

  /** A docente comes from a valid row: its persona id and course are that row's. */
  predicate RowValidFor(rows: seq<Row>, d: Docente) {
    2 <= d.row < |rows| + 2
    && !RowInvalid(rows[d.row - 2])
    && ParsePersonaId(CellAt(rows[d.row - 2], "persona_id")) == Some(d.personaId)
    && d.curso in SplitCourses(Strip(CellAt(rows[d.row - 2], "curso").s))
    && d.cursoNorm == NormalizeCourse(d.curso)
  }

  /** A valid row is never rejected later: its persona id is not 0 and its course not empty. */
  lemma RowValidForMeaning(rows: seq<Row>, d: Docente)
    requires RowValidFor(rows, d)
    ensures d.personaId != 0 && d.curso != []
  {
    var cs := SplitCourses(Strip(CellAt(rows[d.row - 2], "curso").s));
    var k :| 0 <= k < |cs| && cs[k] == d.curso;
  }

  lemma RowDocentesValid(rows: seq<Row>, i: int, rowNum: int, pid: int, cursos: seq<seq<char>>, desired: map<char, set<nat>>, specific: bool)
    requires 0 <= i < |rows| && !RowInvalid(rows[i]) && rowNum == i + 2
    requires ParsePersonaId(CellAt(rows[i], "persona_id")) == Some(pid)
    requires cursos == SplitCourses(Strip(CellAt(rows[i], "curso").s))
    ensures forall d :: d in RowDocentes(rowNum, pid, cursos, desired, specific) ==> RowValidFor(rows, d)
  {
    var ds := RowDocentes(rowNum, pid, cursos, desired, specific);
    forall d | d in ds ensures RowValidFor(rows, d) {
      var k :| 0 <= k < |ds| && ds[k] == d;
      assert d.row - 2 == i;
      assert ParsePersonaId(CellAt(rows[d.row - 2], "persona_id")) == Some(d.personaId);
      assert d.curso in cursos;
      assert d.cursoNorm == NormalizeCourse(d.curso);
    }
  }

  /** One row of the read: rejected, or one docente per course. */
  method LoadRow(rows: seq<Row>, i: int, gradeCols: seq<seq<char>>, levelCols: seq<seq<char>>)
    returns (ds: seq<Docente>, invalid: bool)
    requires 0 <= i < |rows|
    requires GradeColumnsOnly(gradeCols) && LevelColumnsOnly(levelCols)
    ensures invalid == RowInvalid(rows[i])
    ensures |ds| == if invalid then 0 else |SplitCourses(Strip(CellAt(rows[i], "curso").s))|
    ensures forall d :: d in ds ==> RowValidFor(rows, d)
    ensures ds == RowLines(rows, i, gradeCols, levelCols)
  {
    var row := rows[i];
    var pid := ParsePersonaId(CellAt(row, "persona_id"));
    var cursos := SplitCourses(Strip(CellAt(row, "curso").s));
    if pid == None || pid == Some(0) || cursos == [] {
      return [], true;
    }
    var desired, specific := ExtractDesiredLevels(row, gradeCols, levelCols);
    ds := RowDocentes(i + 2, pid.value, cursos, desired, specific);
    RowDocentesValid(rows, i, i + 2, pid.value, cursos, desired, specific);
    invalid := false;
  }

  /** The counts over one more row. */
  lemma RowCountsStep(rows: seq<Row>, i: nat)
    requires i < |rows|
    ensures InvalidRows(rows[..i + 1]) == InvalidRows(rows[..i]) + if RowInvalid(rows[i]) then 1 else 0
    ensures CourseLines(rows[..i + 1])
         == CourseLines(rows[..i]) + if RowInvalid(rows[i]) then 0 else |SplitCourses(Strip(CellAt(rows[i], "curso").s))|
  {
    assert rows[..i + 1][..i] == rows[..i];
    assert rows[..i + 1][i] == rows[i];
  }

  // ---------------------------------------------------------------- catalog

  /** A class of the school catalog, with its parsed suffix. */
  datatype Clase = Clase(id: int, name: seq<char>, norm: seq<char>, grade: nat, level: char, section: char)

  /**
   * An entry of the catalog listing: not an object, or an object with
   * `geClaseId` (absent as `None`) and the two names (absent or null as "").
   */
  datatype CatalogItem = NotAnObject | Item(geClaseId: Option<int>, geClase: seq<char>, geClaseClave: seq<char>)

  function ItemName(it: CatalogItem): seq<char>
    requires it.Item?
  {
    if it.geClase != [] then it.geClase else it.geClaseClave
  }

  /** An entry the parse looks at: an object with a non-zero id and a name. */
  predicate Listed(it: CatalogItem) {
    it.Item? && it.geClaseId.Some? && it.geClaseId.value != 0 && ItemName(it) != []
  }

  /** A listed entry's name is never whitespace only (the source would fail on one). */
  predicate ParsableItem(it: CatalogItem) {
    Listed(it) ==> !IsBlank(ItemName(it))
  }

  predicate ParsableCatalog(items: seq<CatalogItem>) {
    forall it :: it in items ==> ParsableItem(it)
  }

  /** The class an entry yields: none when it is not listed or its suffix does not parse. */
  function ItemClase(it: CatalogItem): (cs: seq<Clase>)
    requires ParsableItem(it)
    ensures |cs| <= 1
    ensures forall c :: c in cs ==>
              c.id != 0 && c.name != [] && !IsBlank(c.name) && c.norm == NormalizeCourse(c.name)
              && ParseClassSuffix(c.name) == Some(Suffix(c.grade, c.level, c.section))
  {
    if Listed(it) && ParseClassSuffix(ItemName(it)).Some? then
      var s := ParseClassSuffix(ItemName(it)).value;
      [Clase(it.geClaseId.value, ItemName(it), NormalizeCourse(ItemName(it)), s.grade, s.level, s.section)]
    else []
  }

  /** The classes the catalog yields, in listing order. */
  function CatalogClases(items: seq<CatalogItem>): (cs: seq<Clase>)
    requires ParsableCatalog(items)
    ensures |cs| <= |items|
    ensures forall c :: c in cs ==>
              c.id != 0 && c.name != [] && !IsBlank(c.name) && c.norm == NormalizeCourse(c.name)
              && ParseClassSuffix(c.name) == Some(Suffix(c.grade, c.level, c.section))
  {
    if items == [] then []
    else
      var init := items[..|items| - 1];
      assert forall it :: it in init ==> it in items;
      CatalogClases(init) + ItemClase(items[|items| - 1])
  }

  /** The listed entries whose suffix does not parse. */
  function CatalogIgnored(items: seq<CatalogItem>): (n: nat)
    requires ParsableCatalog(items)
    ensures n + |CatalogClases(items)| == CatalogListed(items)
  {
    if items == [] then 0
    else
      var init := items[..|items| - 1];
      var it := items[|items| - 1];
      assert it in items;
      assert forall x :: x in init ==> x in items;
      CatalogIgnored(init) + if Listed(it) && ParseClassSuffix(ItemName(it)).None? then 1 else 0
  }

  /** The entries with an id and a name. */
  function CatalogListed(items: seq<CatalogItem>): nat {
    if items == [] then 0
    else CatalogListed(items[..|items| - 1]) + if Listed(items[|items| - 1]) then 1 else 0
  }

  /**
   * The parse loop over the catalog listing: entries without id or name are
   * passed over without counting; entries whose suffix does not parse are
   * counted as ignored; the rest become classes.
   */
  method ParseCatalog(items: seq<CatalogItem>) returns (clases: seq<Clase>, ignored: nat)
    requires ParsableCatalog(items)
    ensures clases == CatalogClases(items)
    ensures ignored == CatalogIgnored(items)
  {
    clases := [];
    ignored := 0;
    for i := 0 to |items|
      invariant ParsableCatalog(items[..i])
      invariant clases == CatalogClases(items[..i])
      invariant ignored == CatalogIgnored(items[..i])
    {
      CatalogStep(items, i);
      var it := items[i];
      if it.Item? {
        var name := if it.geClase != [] then it.geClase else it.geClaseClave;
        if it.geClaseId.Some? && it.geClaseId.value != 0 && name != [] {
          var parsed := ParseClassSuffix(name);
          if parsed.None? {
            ignored := ignored + 1;
          } else {
            var s := parsed.value;
            clases := clases + [Clase(it.geClaseId.value, name, NormalizeCourse(name), s.grade, s.level, s.section)];
          }
        }
      }
    }
    assert items[..|items|] == items;
  }

  /** The catalog read over one more entry. */
  lemma CatalogStep(items: seq<CatalogItem>, i: nat)
    requires ParsableCatalog(items) && i < |items|
    ensures ParsableCatalog(items[..i]) && ParsableCatalog(items[..i + 1]) && ParsableItem(items[i])
    ensures CatalogClases(items[..i + 1]) == CatalogClases(items[..i]) + ItemClase(items[i])
    ensures CatalogIgnored(items[..i + 1])
         == CatalogIgnored(items[..i]) + if Listed(items[i]) && ParseClassSuffix(ItemName(items[i])).None? then 1 else 0
  {
    var prefix := items[..i + 1];
    assert prefix[..i] == items[..i] && prefix[i] == items[i];
    assert forall x :: x in prefix ==> x in items;
    assert items[i] in items;
  }

  // ---------------------------------------------------------------- matcher

  /** A class a docente asks for: course prefix, desired level, and desired grade when grade-specific. */
  predicate Matches(d: Docente, c: Clase) {
    d.cursoNorm <= c.norm
    && c.level in d.desired
    && (d.gradeSpecific ==> c.grade in d.desired[c.level])
  }

  function FilterMatches(d: Docente, cs: seq<Clase>): (r: seq<Clase>)
    ensures forall c :: c in r ==> Matches(d, c)
    ensures forall c :: c in cs && Matches(d, c) ==> c in r
    ensures IsSubsequence(r, cs)
  {
    if cs == [] then []
    else if Matches(d, cs[0]) then [cs[0]] + FilterMatches(d, cs[1..])
    else
      var rest := FilterMatches(d, cs[1..]);
      SubsequenceOfTail(rest, cs);
      rest
  }

  /**
   * The catalog classes matched by a docente, in catalog order. An empty
   * normalised course matches nothing; there is no section filter.
   */
  function MatchClases(d: Docente, cs: seq<Clase>): (r: seq<Clase>)
    ensures d.cursoNorm == [] ==> r == []
    ensures forall c :: c in r ==> Matches(d, c) && c in cs
    ensures d.cursoNorm != [] ==> forall c :: c in cs && Matches(d, c) ==> c in r
    ensures IsSubsequence(r, cs)
  {
    if d.cursoNorm == [] then [] else
      var r := FilterMatches(d, cs);
      SubsequenceMembers(r, cs);
      r
  }

  lemma {:induction false} SubsequenceMembers<T>(sub: seq<T>, s: seq<T>)
    requires IsSubsequence(sub, s)
    ensures forall x :: x in sub ==> x in s
    decreases |s|
  {
    if sub != [] {
      if sub[0] == s[0] {
        SubsequenceMembers(sub[1..], s[1..]);
        assert forall x :: x in sub ==> x == sub[0] || x in sub[1..];
      } else {
        SubsequenceMembers(sub, s[1..]);
      }
    }
  }

  /** Two classes that differ only in their section are matched alike. */
  lemma MatchIgnoresSection(d: Docente, c: Clase, section: char)
    ensures Matches(d, c) == Matches(d, c.(section := section))
  {
  }
}
