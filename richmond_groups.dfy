/**
 * Richmond Studio group planning (santillana_format/richmond_groups.py): the
 * level, grade and section parsers, the grade-level deciders for primary and
 * secondary products, the row validation that plans one group per section,
 * and the loop that creates each planned group unless its name already
 * exists. The institution change, the listing of existing group names and
 * each creation request are oracles.
 */
module RichmondGroups {
  import opened Text
  import opened Letters
  import ProfesoresClases

  // ------------------------------------------------------------- text rules

  /**
   * `_normalize_text`: accents folded, each run of characters other than
   * ASCII letters and digits turned into one space, upper-cased, and the
   * words joined by single spaces; the same text the course normaliser of
   * the class matcher produces.
   */
  function NormalizeText(s: seq<char>): seq<char> {
    ProfesoresClases.NormalizeCourse(FoldMarks(s))
  }

  datatype Level = Primaria | Secundaria

  function LevelName(l: Level): seq<char> {
    match l
    case Primaria => "Primaria"
    case Secundaria => "Secundaria"
  }

  /** `LEVEL_CODES`. */
  function LevelCode(l: Level): char {
    match l
    case Primaria => 'P'
    case Secundaria => 'S'
  }

  /** `_parse_level`: `PRIM` is looked for before `SEC`. */
  function ParseLevel(value: seq<char>): Option<Level> {
    var n := NormalizeText(value);
    if IsInfix("PRIM", n) then Some(Primaria)
    else if IsInfix("SEC", n) then Some(Secundaria)
    else None
  }

  /** Each level's name reads back as that level. */
  lemma ParseLevelNames(l: Level)
    ensures ParseLevel(LevelName(l)) == Some(l)
  {
    match l
    case Primaria => PrimariaWord(LevelName(l));
    case Secundaria => SecundariaWord(LevelName(l));
  }

  lemma PrimariaWord(w: seq<char>)
    requires w == "Primaria"
    ensures ParseLevel(w) == Some(Primaria)
  {
    assert forall i :: 0 <= i < |w| ==> IsAlnum(w[i]);
    assert Upper(w)[..4] == "PRIM";
    assert OccursAt("PRIM", Upper(w), 0);
    ParseLevelOfWord(w, Primaria);
  }

  lemma SecundariaWord(w: seq<char>)
    requires w == "Secundaria"
    ensures ParseLevel(w) == Some(Secundaria)
  {
    assert forall i :: 0 <= i < |w| ==> IsAlnum(w[i]);
    assert forall i :: 0 <= i < |w| ==> w[i] != 'p' && w[i] != 'P';
    UpperMissing(w, 'P');
    MissingFirstChar("PRIM", Upper(w));
    assert Upper(w)[..3] == "SEC";
    assert OccursAt("SEC", Upper(w), 0);
    ParseLevelOfWord(w, Secundaria);
  }

  lemma ParseLevelOfWord(w: seq<char>, l: Level)
    requires w != [] && forall i :: 0 <= i < |w| ==> IsAlnum(w[i])
    requires l == Primaria ==> IsInfix("PRIM", Upper(w))
    requires l == Secundaria ==> !IsInfix("PRIM", Upper(w)) && IsInfix("SEC", Upper(w))
    ensures ParseLevel(w) == Some(l)
  {
    SingleWordNormal(w);
  }

  /** An upper-case letter absent from a text in both cases is absent from its upper-case form. */
  lemma UpperMissing(w: seq<char>, c: char)
    requires IsUpper(c)
    requires forall i :: 0 <= i < |w| ==> w[i] != c && w[i] != LowerChar(c)
    ensures forall i :: 0 <= i < |w| ==> Upper(w)[i] != c
  {
  }

  /** A text without the first character of `p` does not hold `p`. */
  lemma MissingFirstChar(p: seq<char>, s: seq<char>)
    requires p != [] && forall i :: 0 <= i < |s| ==> s[i] != p[0]
    ensures !IsInfix(p, s)
  {
    forall i | 0 <= i <= |s| - |p|
      ensures !OccursAt(p, s, i)
    {
      assert s[i..i + |p|][0] == s[i] != p[0];
    }
  }

  /** A single word of ASCII letters and digits normalises to its upper-case form. */
  lemma SingleWordNormal(w: seq<char>)
    requires w != [] && forall i :: 0 <= i < |w| ==> IsAlnum(w[i])
    ensures NormalizeText(w) == Upper(w)
  {
    FoldMarksOfAlnum(w);
    var u := Upper(w);
    assert forall i :: 0 <= i < |u| ==> IsAlnum(u[i]);
    WordLenOfPrefix(u, [], NotAlnum);
    assert u + [] == u;
    assert u[|u|..] == [];
    assert Tokens(u, NotAlnum) == [u];
  }

  predicate NotDigit(c: char) {
    !IsDigit(c)
  }

  /** `_parse_grade`: the first run of decimal digits, as a number. */
  function ParseGrade(s: seq<char>): Option<nat> {
    if s == [] then None
    else if IsDigit(s[0]) then Some(DigitsValue(s[..WordLen(s, NotDigit)]))
    else ParseGrade(s[1..])
  }

  /** No grade is read iff the text holds no digit. */
  lemma {:induction false} ParseGradeNone(s: seq<char>)
    ensures ParseGrade(s).None? <==> forall i :: 0 <= i < |s| ==> !IsDigit(s[i])
  {
    if s != [] && !IsDigit(s[0]) {
      ParseGradeNone(s[1..]);
      assert forall i :: 1 <= i < |s| ==> s[i] == s[1..][i - 1];
    }
  }

  /** A number written after digit-free text, and not followed by a digit, is the grade read. */
  lemma {:induction false} ParseGradeOf(pre: seq<char>, n: nat, post: seq<char>)
    requires forall i :: 0 <= i < |pre| ==> !IsDigit(pre[i])
    requires post == [] || !IsDigit(post[0])
    ensures ParseGrade(pre + NatToString(n) + post) == Some(n)
    decreases |pre|
  {
    var s := pre + NatToString(n) + post;
    if pre == [] {
      var d := NatToString(n);
      assert s == d + post;
      WordLenOfPrefix(d, post, NotDigit);
      assert s[..|d|] == d;
      NatToStringValue(n);
    } else {
      assert s[1..] == pre[1..] + NatToString(n) + post;
      ParseGradeOf(pre[1..], n, post);
    }
  }

  /** `[\s,;/]+`, the separators of a section list. */
  predicate SectionSeparator(c: char) {
    IsSpace(c) || c == ',' || c == ';' || c == '/'
  }

  /** The message `_parse_sections` reports when there is no section. */
  const EmptySections: seq<char> := "Secciones vacias."

  /** `_parse_sections`: the section letters and the invalid tokens; `None` stands for a missing value. */
  function Sections(value: Option<seq<char>>): Scan {
    if value.None? then Scan([], [EmptySections])
    else
      var s := ScanAll(Tokens(value.value, SectionSeparator));
      if s.letters == [] && s.invalid == [] then Scan([], [EmptySections]) else s
  }

  method ParseSections(value: Option<seq<char>>) returns (letras: seq<char>, invalid: seq<seq<char>>)
    ensures Scan(letras, invalid) == Sections(value)
  {
    if value.None? {
      return [], [EmptySections];
    }
    letras, invalid := ScanTokens(Tokens(value.value, SectionSeparator));
    if letras == [] && invalid == [] {
      invalid := [EmptySections];
    }
  }

  /** A split section token is never blank. */
  lemma SectionTokenNotBlank(value: seq<char>, t: seq<char>)
    requires t in Tokens(value, SectionSeparator)
    ensures Clean(t) != []
  {
    TokensWellFormed(value, SectionSeparator);
    var k :| 0 <= k < |Tokens(value, SectionSeparator)| && Tokens(value, SectionSeparator)[k] == t;
    StripUnpadded(t);
  }

  /**
   * With no token the only report is the empty-sections message; otherwise
   * the letters are distinct, upper-case and exactly those the tokens name,
   * and the reports are exactly the tokens that are not single letters.
   */
  lemma SectionsMeaning(value: seq<char>)
    ensures Tokens(value, SectionSeparator) == [] ==> Sections(Some(value)) == Scan([], [EmptySections])
    ensures Tokens(value, SectionSeparator) != [] ==>
      Sections(Some(value)) == ScanAll(Tokens(value, SectionSeparator)) &&
      forall t :: t in Sections(Some(value)).invalid <==> t in Tokens(value, SectionSeparator) && Invalid(t)
    ensures var ls := Sections(Some(value)).letters;
      (forall i, j :: 0 <= i < j < |ls| ==> ls[i] != ls[j]) &&
      (forall i :: 0 <= i < |ls| ==> IsUpper(ls[i])) &&
      (forall c :: c in ls <==> exists t :: t in Tokens(value, SectionSeparator) && Names(t, c))
  {
    var ts := Tokens(value, SectionSeparator);
    ScanLetters(ts);
    ScanInvalid(ts);
    ScanEmptyIff(ts);
    if ts != [] {
      SectionTokenNotBlank(value, ts[0]);
    }
  }

  // ------------------------------------------------------------ grade levels

  /** `normalized.replace(" ", "")`. */
  function Compact(s: seq<char>): (r: seq<char>)
    ensures |r| <= |s|
  {
    if s == [] then []
    else if s[0] == ' ' then Compact(s[1..])
    else [s[0]] + Compact(s[1..])
  }

  lemma {:induction false} CompactConcat(a: seq<char>, b: seq<char>)
    ensures Compact(a + b) == Compact(a) + Compact(b)
  {
    if a != [] {
      assert (a + b)[0] == a[0];
      assert (a + b)[1..] == a[1..] + b;
      CompactConcat(a[1..], b);
      if a[0] != ' ' {
        assert Compact(a + b) == [a[0]] + (Compact(a[1..]) + Compact(b));
        assert [a[0]] + (Compact(a[1..]) + Compact(b)) == ([a[0]] + Compact(a[1..])) + Compact(b);
      }
    } else {
      assert a + b == b;
    }
  }

  /**
   * `_contains_phrase` for a phrase already normalised: it is one of the
   * words, occurs in the text, or occurs in the text with spaces removed.
   */
  predicate ContainsPhrase(n: seq<char>, phrase: seq<char>) {
    phrase in Tokens(n, IsSpace) || IsInfix(phrase, n) || IsInfix(Compact(phrase), Compact(n))
  }

  /**
   * A text holding a phrase holds every beginning of it that has a space in
   * it, when the rest of the phrase has none.
   */
  lemma ContainsPhrasePrefix(n: seq<char>, p: seq<char>, q: seq<char>)
    requires ' ' in p
    requires ContainsPhrase(n, p + q)
    ensures ContainsPhrase(n, p)
  {
    var pq := p + q;
    if pq in Tokens(n, IsSpace) {
      TokensWellFormed(n, IsSpace);
      assert false;
    } else if IsInfix(pq, n) {
      var i :| 0 <= i <= |n| - |pq| && OccursAt(pq, n, i);
      assert n[i..i + |p|] == pq[..|p|] == p;
      assert OccursAt(p, n, i);
    } else {
      var c := Compact(n);
      CompactConcat(p, q);
      var cp, cq := Compact(p), Compact(q);
      var i :| 0 <= i <= |c| - |cp + cq| && OccursAt(cp + cq, c, i);
      assert c[i..i + |cp|] == (cp + cq)[..|cp|] == cp;
      assert OccursAt(cp, c, i);
    }
  }

  /** The phrases the grade-level rules look for. */
  datatype Phrase =
    | GoForIt | GoFurther | FlyHigher | FlyHigh | Everyone | Orbit | CoolKids | NewFriends
    | LowerPrimaryPhrase | UpperPrimaryPhrase | KeepItReal | Directions | EveryoneTeens
    | StudentsForPeace | StopwatchSplit | Stopwatch | Split | Full | LowerSecondaryPhrase
    | UpperSecondaryPhrase

  function PhraseText(p: Phrase): seq<char> {
    match p
    case GoForIt => "GO FOR IT"
    case GoFurther => "GO FURTHER"
    case FlyHigher => "FLY HIGHER"
    case FlyHigh => "FLY HIGH"
    case Everyone => "EVERYONE"
    case Orbit => "ORBIT"
    case CoolKids => "COOL KIDS"
    case NewFriends => "NEW FRIENDS"
    case LowerPrimaryPhrase => "LOWER PRIMARY"
    case UpperPrimaryPhrase => "UPPER PRIMARY"
    case KeepItReal => "KEEP IT REAL"
    case Directions => "DIRECTIONS"
    case EveryoneTeens => "EVERYONE TEENS"
    case StudentsForPeace => "STUDENTS FOR PEACE"
    case StopwatchSplit => "STOPWATCH SPLIT"
    case Stopwatch => "STOPWATCH"
    case Split => "SPLIT"
    case Full => "FULL"
    case LowerSecondaryPhrase => "LOWER SECONDARY"
    case UpperSecondaryPhrase => "UPPER SECONDARY"
  }

  /**
   * What the rules read from a normalised product: which phrases it
   * contains, and whether `BE` is one of its words.
   */
  datatype Product = Product(has: Phrase -> bool, be: bool)

  function ReadProduct(n: seq<char>): (r: Product)
    ensures forall p :: r.has(p) == ContainsPhrase(n, PhraseText(p))
    ensures r.be == ("BE" in Tokens(n, IsSpace))
  {
    Product(p => ContainsPhrase(n, PhraseText(p)), "BE" in Tokens(n, IsSpace))
  }

  datatype GradeLevel = LowerPrimary | UpperPrimary | LowerSecondary | UpperSecondary

  /** The `gradeLevel` value sent for each grade level. */
  function GradeLevelName(g: GradeLevel): seq<char> {
    match g
    case LowerPrimary => "lower_primary"
    case UpperPrimary => "upper_primary"
    case LowerSecondary => "lower_secondary"
    case UpperSecondary => "upper_secondary"
  }

  /** The warnings and errors the deciders return. */
  datatype Note = PrimaryUndetermined | GoForItRange | StopwatchFullRange | StopwatchAssumed
                | SecondaryUndetermined | LevelUnsupported

  /** A decider's answer: the grade level, if any, and a note, if any. */
  datatype Decision = Decision(level: Option<GradeLevel>, note: Option<Note>)

  /** The lower level up to grade `limit`, the upper one above it. */
  function ByGrade(grade: int, limit: int, lower: GradeLevel, upper: GradeLevel): Decision {
    Decision(Some(if grade <= limit then lower else upper), None)
  }

  /** `_grade_level_primary`. */
  function PrimaryGradeLevel(grade: int, p: Product): Decision {
    if p.has(GoForIt) then Decision(Some(LowerPrimary), None)
    else if p.has(GoFurther) then ByGrade(grade, 4, LowerPrimary, UpperPrimary)
    else if p.has(FlyHigher) then Decision(Some(UpperPrimary), None)
    else if p.has(FlyHigh) then ByGrade(grade, 4, LowerPrimary, UpperPrimary)
    else if p.be then Decision(Some(UpperPrimary), None)
    else if p.has(Everyone) || p.has(Orbit) || p.has(CoolKids) || p.has(NewFriends) then
      Decision(Some(LowerPrimary), None)
    else if p.has(LowerPrimaryPhrase) then Decision(Some(LowerPrimary), None)
    else if p.has(UpperPrimaryPhrase) then Decision(Some(UpperPrimary), None)
    else Decision(None, Some(PrimaryUndetermined))
  }

  /** The Stopwatch rules of `_grade_level_secondary`. */
  function StopwatchGradeLevel(grade: int, p: Product): Decision {
    if p.has(Split) then Decision(Some(LowerSecondary), None)
    else if p.has(Full) then
      if grade == 5 then Decision(Some(LowerSecondary), None) else Decision(None, Some(StopwatchFullRange))
    else Decision(Some(LowerSecondary), Some(StopwatchAssumed))
  }

  /** `_grade_level_secondary`. */
  function SecondaryGradeLevel(grade: int, p: Product): Decision {
    if p.has(GoForIt) then
      if grade <= 4 then Decision(Some(LowerSecondary), None) else Decision(None, Some(GoForItRange))
    else if p.has(GoFurther) then ByGrade(grade, 3, LowerSecondary, UpperSecondary)
    else if p.has(FlyHigher) then Decision(Some(UpperSecondary), None)
    else if p.has(FlyHigh) then ByGrade(grade, 2, LowerSecondary, UpperSecondary)
    else if p.has(KeepItReal) then ByGrade(grade, 2, LowerSecondary, UpperSecondary)
    else if p.has(Directions) then Decision(Some(UpperSecondary), None)
    else if p.has(EveryoneTeens) || p.has(StudentsForPeace) || p.has(NewFriends) || p.has(StopwatchSplit) then
      Decision(Some(LowerSecondary), None)
    else if p.has(Stopwatch) then StopwatchGradeLevel(grade, p)
    else if p.has(LowerSecondaryPhrase) then Decision(Some(LowerSecondary), None)
    else if p.has(UpperSecondaryPhrase) then Decision(Some(UpperSecondary), None)
    else Decision(None, Some(SecondaryUndetermined))
  }

  /** `_determine_grade_level`. */
  function DetermineGradeLevel(level: seq<char>, grade: int, product: seq<char>): Decision {
    if level == LevelName(Primaria) then
      if grade <= 2 then Decision(None, None) else PrimaryGradeLevel(grade, ReadProduct(NormalizeText(product)))
    else if level == LevelName(Secundaria) then SecondaryGradeLevel(grade, ReadProduct(NormalizeText(product)))
    else Decision(None, Some(LevelUnsupported))
  }

  /** A primary decision is a primary grade level without a note, or no level with the undetermined note. */
  lemma PrimaryKinds(grade: int, p: Product)
    ensures var d := PrimaryGradeLevel(grade, p);
      (d.level.Some? ==> (d.level.value == LowerPrimary || d.level.value == UpperPrimary) && d.note.None?) &&
      (d.level.None? ==> d.note == Some(PrimaryUndetermined))
  {
  }

  /**
   * A secondary decision is a secondary grade level, with at most the
   * Stopwatch assumption as a note, or no level with an error note.
   */
  lemma SecondaryKinds(grade: int, p: Product)
    ensures var d := SecondaryGradeLevel(grade, p);
      (d.level.Some? ==> (d.level.value == LowerSecondary || d.level.value == UpperSecondary) &&
                         (d.note.None? || d.note == Some(StopwatchAssumed))) &&
      (d.level.None? ==> d.note == Some(GoForItRange) || d.note == Some(StopwatchFullRange) ||
                         d.note == Some(SecondaryUndetermined))
  {
  }

  /** The grade level always belongs to the row's level, and Primaria grades 1 and 2 need none. */
  lemma DetermineMatchesLevel(l: Level, grade: int, product: seq<char>)
    ensures var d := DetermineGradeLevel(LevelName(l), grade, product);
      (l == Primaria && grade <= 2 ==> d == Decision(None, None)) &&
      (l == Primaria && d.level.Some? ==> d.level.value == LowerPrimary || d.level.value == UpperPrimary) &&
      (l == Secundaria && d.level.Some? ==> d.level.value == LowerSecondary || d.level.value == UpperSecondary)
  {
    var p := ReadProduct(NormalizeText(product));
    match l
    case Primaria => PrimaryKinds(grade, p);
    case Secundaria => SecondaryKinds(grade, p);
  }

  /** Any other level is unsupported. */
  lemma DetermineUnsupported(level: seq<char>, grade: int, product: seq<char>)
    requires level != LevelName(Primaria) && level != LevelName(Secundaria)
    ensures DetermineGradeLevel(level, grade, product) == Decision(None, Some(LevelUnsupported))
  {
  }

  /** Every product holding `FLY HIGHER` also holds `FLY HIGH`. */
  lemma FlyHigherHoldsFlyHigh(n: seq<char>, high: seq<char>, higher: seq<char>)
    requires high == PhraseText(FlyHigh) && higher == PhraseText(FlyHigher)
    ensures ContainsPhrase(n, higher) ==> ContainsPhrase(n, high)
  {
    if ContainsPhrase(n, higher) {
      assert high[3] == ' ';
      assert higher == high + "ER";
      ContainsPhrasePrefix(n, high, "ER");
    }
  }

  /**
   * Since `FLY HIGHER` is tested before `FLY HIGH`, which every such product
   * also holds, `FLY HIGHER` gives the upper level whatever the grade.
   */
  lemma FlyHigherPrecedence(grade: int, n: seq<char>)
    requires ContainsPhrase(n, PhraseText(FlyHigher))
    requires !ContainsPhrase(n, PhraseText(GoForIt)) && !ContainsPhrase(n, PhraseText(GoFurther))
    ensures ContainsPhrase(n, PhraseText(FlyHigh))
    ensures PrimaryGradeLevel(grade, ReadProduct(n)) == Decision(Some(UpperPrimary), None)
    ensures SecondaryGradeLevel(grade, ReadProduct(n)) == Decision(Some(UpperSecondary), None)
  {
    FlyHigherHoldsFlyHigh(n, PhraseText(FlyHigh), PhraseText(FlyHigher));
  }

  /** In secondary, Go For It beyond grade 4 is an error; in primary it is always the lower level. */
  lemma GoForItRule(grade: int, p: Product)
    requires p.has(GoForIt)
    ensures SecondaryGradeLevel(grade, p).level.Some? <==> grade <= 4
    ensures PrimaryGradeLevel(grade, p) == Decision(Some(LowerPrimary), None)
  {
  }

  /** In secondary, a Stopwatch Full product that no earlier rule decides is valid in grade 5 only. */
  lemma StopwatchFullSecondary(grade: int, p: Product)
    requires p.has(Stopwatch) && p.has(Full) && !p.has(Split) && !p.has(StopwatchSplit)
    requires !p.has(GoForIt) && !p.has(GoFurther) && !p.has(FlyHigher) && !p.has(FlyHigh)
    requires !p.has(KeepItReal) && !p.has(Directions) && !p.has(EveryoneTeens)
    requires !p.has(StudentsForPeace) && !p.has(NewFriends)
    ensures SecondaryGradeLevel(grade, p).level.Some? <==> grade == 5
    ensures grade != 5 ==> SecondaryGradeLevel(grade, p).note == Some(StopwatchFullRange)
  {
  }
  // ------------------------------------------------------------ planned rows

  /** The four cells of a spreadsheet row, as text. */
  datatype SheetRow = SheetRow(nivel: seq<char>, grado: seq<char>, producto: seq<char>, secciones: seq<char>)

  /** Why a row yields an error entry. */
  datatype Problem = NivelInvalido | GradoInvalido | GradoFueraDeRango | SeccionesInvalidas(tokens: seq<seq<char>>)
                   | ProductoVacio | SinGradeLevel(note: Option<Note>)

  /** An entry of `entries`: a row's error, or one group to create. */
  datatype Entry =
    | Rejected(row: int, problem: Problem)
    | Planned(row: int, nivel: Level, grado: nat, seccion: char, name: seq<char>, grade: seq<char>,
              gradeLevel: Option<GradeLevel>, warning: Option<Note>)

  /** `NAME_BASE`. */
  const NameBase: seq<char> := "Inglés"

  /** The group name of a grade and section of a level. */
  function GroupName(nivel: Level, grado: nat, seccion: char): seq<char> {
    NameBase + " " + NatToString(grado) + [LevelCode(nivel)] + [seccion]
  }

  /** The `grade` attribute of a grade. */
  function GradeText(grado: nat): seq<char> {
    "grade" + NatToString(grado)
  }

  /** The grades each level accepts. */
  predicate InRange(nivel: Level, grado: nat) {
    match nivel
    case Primaria => 1 <= grado <= 6
    case Secundaria => 1 <= grado <= 5
  }

  /** `requiere_grade_level`. */
  predicate RequiresGradeLevel(nivel: Level, grado: int) {
    nivel == Secundaria || grado >= 3
  }

  /** One planned group per section, in the order of the sections. */
  function PlannedGroups(rowNum: int, nivel: Level, grado: nat, secciones: seq<char>, d: Decision): (es: seq<Entry>)
    ensures |es| == |secciones|
    ensures forall i :: 0 <= i < |es| ==>
      es[i] == Planned(rowNum, nivel, grado, secciones[i], GroupName(nivel, grado, secciones[i]),
                       GradeText(grado), d.level, d.note)
  {
    seq(|secciones|, i requires 0 <= i < |secciones| =>
      Planned(rowNum, nivel, grado, secciones[i], GroupName(nivel, grado, secciones[i]),
              GradeText(grado), d.level, d.note))
  }

  /** The last check of a row: a grade level where one is required. */
  function DecidedEntries(rowNum: int, nivel: Level, grado: nat, secciones: seq<char>, d: Decision): seq<Entry> {
    if RequiresGradeLevel(nivel, grado) && d.level.None? then [Rejected(rowNum, SinGradeLevel(d.note))]
    else PlannedGroups(rowNum, nivel, grado, secciones, d)
  }

  /** The section and product checks of a row with a level and a grade in range. */
  function CheckedEntries(rowNum: int, nivel: Level, grado: nat, producto: seq<char>, secs: Scan): seq<Entry> {
    if secs.invalid != [] then [Rejected(rowNum, SeccionesInvalidas(secs.invalid))]
    else if producto == [] then [Rejected(rowNum, ProductoVacio)]
    else DecidedEntries(rowNum, nivel, grado, secs.letters, DetermineGradeLevel(LevelName(nivel), grado, producto))
  }

  /** The grade checks of a row with a level. */
  function GradedEntries(rowNum: int, nivel: Level, grado: seq<char>, producto: seq<char>, secciones: seq<char>): seq<Entry> {
    match ParseGrade(grado)
    case None => [Rejected(rowNum, GradoInvalido)]
    case Some(g) =>
      if !InRange(nivel, g) then [Rejected(rowNum, GradoFueraDeRango)]
      else CheckedEntries(rowNum, nivel, g, producto, Sections(Some(secciones)))
  }

  /** What the row loop of `process_rs_groups` appends for one row. */
  function RowEntries(rowNum: int, row: SheetRow): seq<Entry> {
    var nivel, grado, producto, secciones :=
      Strip(row.nivel), Strip(row.grado), Strip(row.producto), Strip(row.secciones);
    if nivel == [] && grado == [] && producto == [] && secciones == [] then []
    else
      match ParseLevel(nivel)
      case None => [Rejected(rowNum, NivelInvalido)]
      case Some(l) => GradedEntries(rowNum, l, grado, producto, secciones)
  }

  /** The entries of a sheet; the row number is the row's index plus two. */
  function Entries(rows: seq<SheetRow>): seq<Entry> {
    if rows == [] then []
    else Entries(rows[..|rows| - 1]) + RowEntries(|rows| - 1 + 2, rows[|rows| - 1])
  }

  /** The loop over the sections of an accepted row. */
  method PlanSections(rowNum: int, nivel: Level, grado: nat, secciones: seq<char>, d: Decision) returns (es: seq<Entry>)
    ensures es == PlannedGroups(rowNum, nivel, grado, secciones, d)
  {
    es := [];
    for i := 0 to |secciones|
      invariant es == PlannedGroups(rowNum, nivel, grado, secciones[..i], d)
    {
      var seccion := secciones[i];
      var name := NameBase + " " + NatToString(grado) + [LevelCode(nivel)] + [seccion];
      es := es + [Planned(rowNum, nivel, grado, seccion, name, "grade" + NatToString(grado), d.level, d.note)];
    }
    assert secciones[..|secciones|] == secciones;
  }

  /** One row of the row loop. */
  method PlanRow(rowNum: int, row: SheetRow) returns (es: seq<Entry>)
    ensures es == RowEntries(rowNum, row)
  {
    var nivelRaw, gradoRaw, productoRaw, seccionesRaw :=
      Strip(row.nivel), Strip(row.grado), Strip(row.producto), Strip(row.secciones);
    if nivelRaw == [] && gradoRaw == [] && productoRaw == [] && seccionesRaw == [] {
      return [];
    }
    var nivel := ParseLevel(nivelRaw);
    if nivel.None? {
      return [Rejected(rowNum, NivelInvalido)];
    }
    es := PlanGraded(rowNum, nivel.value, gradoRaw, productoRaw, seccionesRaw);
  }

  /** The checks of a row once its level is known, and its planned groups. */
  method PlanGraded(rowNum: int, nivel: Level, gradoRaw: seq<char>, productoRaw: seq<char>, seccionesRaw: seq<char>)
    returns (es: seq<Entry>)
    ensures es == GradedEntries(rowNum, nivel, gradoRaw, productoRaw, seccionesRaw)
  {
    var gradeNum := ParseGrade(gradoRaw);
    if gradeNum.None? {
      return [Rejected(rowNum, GradoInvalido)];
    }
    var grado := gradeNum.value;
    if nivel == Primaria && !(1 <= grado <= 6) {
      return [Rejected(rowNum, GradoFueraDeRango)];
    }
    if nivel == Secundaria && !(1 <= grado <= 5) {
      return [Rejected(rowNum, GradoFueraDeRango)];
    }
    var secciones, invalid := ParseSections(Some(seccionesRaw));
    if invalid != [] {
      return [Rejected(rowNum, SeccionesInvalidas(invalid))];
    }
    if productoRaw == [] {
      return [Rejected(rowNum, ProductoVacio)];
    }
    var d := DetermineGradeLevel(LevelName(nivel), grado, productoRaw);
    if (nivel == Secundaria || grado >= 3) && d.level.None? {
      return [Rejected(rowNum, SinGradeLevel(d.note))];
    }
    es := PlanSections(rowNum, nivel, grado, secciones, d);
  }

  /** The row loop of `process_rs_groups`. */
  method PlanRows(rows: seq<SheetRow>) returns (entries: seq<Entry>)
    ensures entries == Entries(rows)
  {
    entries := [];
    for k := 0 to |rows|
      invariant entries == Entries(rows[..k])
    {
      assert rows[..k + 1][..k] == rows[..k];
      var es := PlanRow(k + 2, rows[k]);
      entries := entries + es;
    }
    assert rows[..|rows|] == rows;
  }

  /**
   * After its checks, a row yields one error, or one planned group per
   * section, in the order of its sections.
   */
  lemma DecidedShape(rowNum: int, nivel: Level, grado: nat, secciones: seq<char>, d: Decision)
    ensures var es := DecidedEntries(rowNum, nivel, grado, secciones, d);
      (|es| == 1 && es[0].Rejected?) ||
      (|es| == |secciones| && forall i :: 0 <= i < |es| ==> es[i].Planned? && es[i].seccion == secciones[i])
  {
  }

  /**
   * A row yields nothing iff its four cells are blank; otherwise one error,
   * or one planned group per section letter, in the order of its sections.
   */
  lemma RowEntriesShape(rowNum: int, row: SheetRow)
    ensures var es := RowEntries(rowNum, row);
      var blank := Strip(row.nivel) == [] && Strip(row.grado) == [] && Strip(row.producto) == [] &&
                   Strip(row.secciones) == [];
      (blank ==> es == []) &&
      (!blank ==>
        (|es| == 1 && es[0].Rejected?) ||
        (|es| == |Sections(Some(Strip(row.secciones))).letters| &&
         forall i :: 0 <= i < |es| ==> es[i].Planned? && es[i].seccion == Sections(Some(Strip(row.secciones))).letters[i]))
  {
    var nivel, grado, producto, secciones :=
      Strip(row.nivel), Strip(row.grado), Strip(row.producto), Strip(row.secciones);
    var secs := Sections(Some(secciones));
    if ParseLevel(nivel).Some? && ParseGrade(grado).Some? && InRange(ParseLevel(nivel).value, ParseGrade(grado).value)
       && secs.invalid == [] && producto != [] {
      var l, g := ParseLevel(nivel).value, ParseGrade(grado).value;
      DecidedShape(rowNum, l, g, secs.letters, DetermineGradeLevel(LevelName(l), g, producto));
    }
  }

  /** What holds of every planned group. */
  predicate ValidPlanned(e: Entry)
    requires e.Planned?
  {
    InRange(e.nivel, e.grado) && IsUpper(e.seccion) &&
    e.name == GroupName(e.nivel, e.grado, e.seccion) &&
    e.grade == GradeText(e.grado) &&
    (RequiresGradeLevel(e.nivel, e.grado) ==> e.gradeLevel.Some?)
  }

  lemma DecidedValid(rowNum: int, nivel: Level, grado: nat, secciones: seq<char>, d: Decision)
    requires InRange(nivel, grado)
    requires forall i :: 0 <= i < |secciones| ==> IsUpper(secciones[i])
    ensures forall e :: e in DecidedEntries(rowNum, nivel, grado, secciones, d) && e.Planned? ==> ValidPlanned(e)
  {
  }

  /**
   * A planned group has a grade its level accepts, an upper-case section,
   * the name `Inglés <grade><P|S><section>` and a grade level where one is
   * required.
   */
  lemma RowEntriesValid(rowNum: int, row: SheetRow)
    ensures forall e :: e in RowEntries(rowNum, row) && e.Planned? ==> ValidPlanned(e)
  {
    var nivel, grado, producto, secciones :=
      Strip(row.nivel), Strip(row.grado), Strip(row.producto), Strip(row.secciones);
    var secs := Sections(Some(secciones));
    if ParseLevel(nivel).Some? && ParseGrade(grado).Some? && InRange(ParseLevel(nivel).value, ParseGrade(grado).value)
       && secs.invalid == [] && producto != [] {
      var l, g := ParseLevel(nivel).value, ParseGrade(grado).value;
      SectionsMeaning(secciones);
      DecidedValid(rowNum, l, g, secs.letters, DetermineGradeLevel(LevelName(l), g, producto));
    }
  }

  lemma {:induction false} EntriesValid(rows: seq<SheetRow>)
    ensures forall e :: e in Entries(rows) && e.Planned? ==> ValidPlanned(e)
  {
    if rows != [] {
      EntriesValid(rows[..|rows| - 1]);
      RowEntriesValid(|rows| - 1 + 2, rows[|rows| - 1]);
    }
  }

  /**
   * The group name carries its grade, level code and section in the class
   * suffix form the class matcher parses.
   */
  lemma GroupNameParses(nivel: Level, grado: nat, seccion: char)
    requires InRange(nivel, grado) && IsUpper(seccion)
    ensures ProfesoresClases.ParsableName(GroupName(nivel, grado, seccion))
    ensures ProfesoresClases.ParseClassSuffix(GroupName(nivel, grado, seccion)) ==
      Some(ProfesoresClases.Suffix(grado, LevelCode(nivel), seccion))
  {
    var s := ProfesoresClases.Suffix(grado, LevelCode(nivel), seccion);
    var title := NameBase + " ";
    assert GroupName(nivel, grado, seccion) == title + ProfesoresClases.GradeFirstToken(s);
    ProfesoresClases.ParseGradeFirstRoundTrip(title, s);
  }

  // ------------------------------------------------------------ creation loop

  /** The status of an entry after the creation loop. */
  datatype Status = Creado | Omitido | Error

  /** `str(entry.get("name") or "").strip()`. */
  function EntryName(e: Entry): seq<char> {
    if e.Rejected? then [] else Strip(e.name)
  }

  /** One step of the creation loop: the status and the names known to exist afterwards. */
  function CreateStep(existing: set<seq<char>>, e: Entry, ok: bool): (Status, set<seq<char>>) {
    if e.Rejected? then (Error, existing)
    else if Strip(e.name) == [] then (Error, existing)
    else if Strip(e.grade) == [] then (Error, existing)
    else if e.gradeLevel.None? && RequiresGradeLevel(e.nivel, e.grado) then (Error, existing)
    else if NormalizeText(Strip(e.name)) in existing then (Omitido, existing)
    else if ok then (Creado, existing + {NormalizeText(Strip(e.name))})
    else (Error, existing)
  }

  /**
   * The statuses of the creation loop and the names known afterwards;
   * `created(k)` is whether the `k`-th creation request succeeds.
   */
  function CreateRun(entries: seq<Entry>, existing: set<seq<char>>, created: nat -> bool): (r: (seq<Status>, set<seq<char>>))
    ensures |r.0| == |entries|
  {
    if entries == [] then ([], existing)
    else
      var k := |entries| - 1;
      var prev := CreateRun(entries[..k], existing, created);
      var step := CreateStep(prev.1, entries[k], created(k));
      (prev.0 + [step.0], step.1)
  }

  function Count(ss: seq<Status>, s: Status): nat {
    if ss == [] then 0 else Count(ss[..|ss| - 1], s) + if ss[|ss| - 1] == s then 1 else 0
  }

  /** The creation loop of `process_rs_groups` with its three counters. */
  method CreateGroups(entries: seq<Entry>, existing0: set<seq<char>>, created: nat -> bool)
    returns (statuses: seq<Status>, creados: nat, omitidos: nat, errores: nat)
    ensures statuses == CreateRun(entries, existing0, created).0
    ensures creados == Count(statuses, Creado) && omitidos == Count(statuses, Omitido) && errores == Count(statuses, Error)
    ensures creados + omitidos + errores == |entries|
  {
    statuses, creados, omitidos, errores := [], 0, 0, 0;
    var existing := existing0;
    for k := 0 to |entries|
      invariant statuses == CreateRun(entries[..k], existing0, created).0
      invariant existing == CreateRun(entries[..k], existing0, created).1
      invariant creados == Count(statuses, Creado) && omitidos == Count(statuses, Omitido) && errores == Count(statuses, Error)
    {
      assert entries[..k + 1][..k] == entries[..k];
      var entry := entries[k];
      ghost var before := existing;
      var status: Status;
      if entry.Rejected? {
        status := Error;
      } else if Strip(entry.name) == [] {
        status := Error;
      } else if Strip(entry.grade) == [] {
        status := Error;
      } else if entry.gradeLevel.None? && (entry.nivel == Secundaria || entry.grado >= 3) {
        status := Error;
      } else if NormalizeText(Strip(entry.name)) in existing {
        status := Omitido;
      } else if created(k) {
        status := Creado;
        existing := existing + {NormalizeText(Strip(entry.name))};
      } else {
        status := Error;
      }
      assert status == CreateStep(before, entry, created(k)).0;
      assert existing == CreateStep(before, entry, created(k)).1;
      CreateRunSnoc(entries, existing0, created, k);
      assert (statuses + [status])[..|statuses|] == statuses;
      match status {
        case Creado => creados := creados + 1;
        case Omitido => omitidos := omitidos + 1;
        case Error => errores := errores + 1;
      }
      statuses := statuses + [status];
    }
    assert entries[..|entries|] == entries;
    CountsPartition(statuses);
  }

  lemma CreateRunSnoc(entries: seq<Entry>, existing: set<seq<char>>, created: nat -> bool, k: nat)
    requires k < |entries|
    ensures var prev := CreateRun(entries[..k], existing, created);
      var step := CreateStep(prev.1, entries[k], created(k));
      CreateRun(entries[..k + 1], existing, created).0 == prev.0 + [step.0] &&
      CreateRun(entries[..k + 1], existing, created).1 == step.1
  {
    assert entries[..k + 1][..k] == entries[..k];
  }

  /** Every status is counted once. */
  lemma {:induction false} CountsPartition(ss: seq<Status>)
    ensures Count(ss, Creado) + Count(ss, Omitido) + Count(ss, Error) == |ss|
  {
    if ss != [] {
      CountsPartition(ss[..|ss| - 1]);
    }
  }

  /** The names known to exist only grow during the run. */
  lemma {:induction false} ExistingGrows(entries: seq<Entry>, existing: set<seq<char>>, created: nat -> bool, k: nat)
    requires k <= |entries|
    ensures existing <= CreateRun(entries[..k], existing, created).1 <= CreateRun(entries, existing, created).1
    decreases |entries|
  {
    if k == |entries| {
      assert entries[..k] == entries;
      if k > 0 {
        ExistingGrows(entries[..k - 1], existing, created, k - 1);
        assert entries[..k - 1][..k - 1] == entries[..k - 1];
      }
    } else {
      var init := entries[..|entries| - 1];
      assert init[..k] == entries[..k];
      ExistingGrows(init, existing, created, k);
    }
  }

  /** The status of the `i`-th entry is decided with the names known after the entries before it. */
  lemma {:induction false} StatusAt(entries: seq<Entry>, existing: set<seq<char>>, created: nat -> bool, i: nat)
    requires i < |entries|
    ensures CreateRun(entries, existing, created).0[i] ==
      CreateStep(CreateRun(entries[..i], existing, created).1, entries[i], created(i)).0
    ensures CreateRun(entries[..i + 1], existing, created).1 ==
      CreateStep(CreateRun(entries[..i], existing, created).1, entries[i], created(i)).1
  {
    CreateRunSnoc(entries, existing, created, i);
    RunPrefix(entries, existing, created, i + 1);
    assert CreateRun(entries, existing, created).0[i] == CreateRun(entries[..i + 1], existing, created).0[i];
  }

  /** The statuses of a prefix of the entries are a prefix of the statuses. */
  lemma {:induction false} RunPrefix(entries: seq<Entry>, existing: set<seq<char>>, created: nat -> bool, k: nat)
    requires k <= |entries|
    ensures CreateRun(entries[..k], existing, created).0 == CreateRun(entries, existing, created).0[..k]
    decreases |entries|
  {
    if k == |entries| {
      assert entries[..k] == entries;
    } else {
      var init := entries[..|entries| - 1];
      assert init[..k] == entries[..k];
      RunPrefix(init, existing, created, k);
    }
  }

  /**
   * A planned group passes the checks of the creation loop: it is skipped
   * when its name is known, and otherwise created exactly when the request
   * succeeds.
   */
  lemma PlannedStatus(existing: set<seq<char>>, e: Entry, ok: bool)
    requires e.Planned? && ValidPlanned(e)
    ensures CreateStep(existing, e, ok).0 ==
      if NormalizeText(EntryName(e)) in existing then Omitido else if ok then Creado else Error
  {
    assert e.name[0] == 'I';
    assert e.grade[0] == 'g';
    StripEmptyIffBlank(e.name);
    StripEmptyIffBlank(e.grade);
  }

  /** An entry is created only under a name not yet known, which it then adds. */
  lemma CreateStepKey(existing: set<seq<char>>, e: Entry, ok: bool)
    ensures CreateStep(existing, e, ok).0 == Creado ==>
      NormalizeText(EntryName(e)) !in existing && NormalizeText(EntryName(e)) in CreateStep(existing, e, ok).1
  {
  }

  /**
   * A group is created at most once per normalised name in a run: a later
   * entry with the name of a created group is not created.
   */
  lemma CreatedOnce(entries: seq<Entry>, existing: set<seq<char>>, created: nat -> bool, i: nat, j: nat)
    requires i < j < |entries|
    requires CreateRun(entries, existing, created).0[i] == Creado
    requires NormalizeText(EntryName(entries[i])) == NormalizeText(EntryName(entries[j]))
    ensures CreateRun(entries, existing, created).0[j] != Creado
  {
    var key := NormalizeText(EntryName(entries[i]));
    var before := CreateRun(entries[..i], existing, created).1;
    assert key in CreateRun(entries[..i + 1], existing, created).1 by {
      StatusAt(entries, existing, created, i);
      CreateStepKey(before, entries[i], created(i));
    }
    var pre := entries[..j];
    assert key in CreateRun(pre, existing, created).1 by {
      assert pre[..i + 1] == entries[..i + 1];
      ExistingGrows(pre, existing, created, i + 1);
    }
    StatusAt(entries, existing, created, j);
    CreateStepKey(CreateRun(pre, existing, created).1, entries[j], created(j));
  }

  /** A name known before the run is never created. */
  lemma NeverCreatesExisting(entries: seq<Entry>, existing: set<seq<char>>, created: nat -> bool, j: nat)
    requires j < |entries| && NormalizeText(EntryName(entries[j])) in existing
    ensures CreateRun(entries, existing, created).0[j] != Creado
  {
    StatusAt(entries, existing, created, j);
    ExistingGrows(entries[..j], existing, created, 0);
    CreateStepKey(CreateRun(entries[..j], existing, created).1, entries[j], created(j));
  }

  // ---------------------------------------------------------------- the run

  /** The columns the sheet must have, after `str(col).strip().lower()`. */
  const RequiredColumns: seq<seq<char>> := ["grado", "nivel", "producto", "secciones"]

  /** The required columns a sheet lacks, in the order they are required. */
  function MissingColumns(columns: seq<seq<char>>, required: seq<seq<char>>): (r: seq<seq<char>>)
    ensures forall c :: c in r <==> c in required && forall h :: h in columns ==> Lower(Strip(h)) != c
  {
    if required == [] then []
    else
      var rest := MissingColumns(columns, required[1..]);
      if exists h :: h in columns && Lower(Strip(h)) == required[0] then rest else [required[0]] + rest
  }

  datatype Summary = Summary(procesados: nat, creados: nat, omitidos: nat, errores: nat)

  /** How `process_rs_groups` ends. */
  datatype Run =
    | Done(summary: Summary, entries: seq<Entry>, statuses: seq<Status>)
    | ColumnsMissing(missing: seq<seq<char>>)
    | InstitutionFailed
    | ListingFailed

  /** The existing names, normalised; empty names are dropped. */
  function ExistingNames(names: seq<seq<char>>): set<seq<char>> {
    set n | n in names && n != [] :: NormalizeText(n)
  }

  /**
   * `process_rs_groups` after the sheet is read: the column check, the row
   * loop, then, when something is planned, the institution change, the
   * listing of existing names and the creation loop; none of the three
   * remote steps happens when no entry is planned.
   */
  method ProcessRsGroups(columns: seq<seq<char>>, rows: seq<SheetRow>, institutionOk: bool,
                         listed: Option<seq<seq<char>>>, created: nat -> bool) returns (run: Run)
    ensures MissingColumns(columns, RequiredColumns) != [] ==> run == ColumnsMissing(MissingColumns(columns, RequiredColumns))
    ensures MissingColumns(columns, RequiredColumns) == [] && Entries(rows) == [] ==> run == Done(Summary(0, 0, 0, 0), [], [])
    ensures MissingColumns(columns, RequiredColumns) == [] && Entries(rows) != [] ==>
      (!institutionOk ==> run == InstitutionFailed) &&
      (institutionOk && listed.None? ==> run == ListingFailed) &&
      (institutionOk && listed.Some? ==>
        run.Done? && run.entries == Entries(rows) &&
        run.statuses == CreateRun(Entries(rows), ExistingNames(listed.value), created).0 &&
        run.summary == Summary(|Entries(rows)|, Count(run.statuses, Creado), Count(run.statuses, Omitido),
                               Count(run.statuses, Error)) &&
        run.summary.creados + run.summary.omitidos + run.summary.errores == run.summary.procesados)
  {
    var missing := MissingColumns(columns, RequiredColumns);
    if missing != [] {
      return ColumnsMissing(missing);
    }
    var entries := PlanRows(rows);
    if |entries| == 0 {
      return Done(Summary(0, 0, 0, 0), [], []);
    }
    if !institutionOk {
      return InstitutionFailed;
    }
    if listed.None? {
      return ListingFailed;
    }
    var existing := ExistingNames(listed.value);
    var statuses, creados, omitidos, errores := CreateGroups(entries, existing, created);
    return Done(Summary(|entries|, creados, omitidos, errores), entries, statuses);
  }

  // ---------------------------------------------------------- request helpers

  /** `RS_BASE_URL`. */
  const RsBaseUrl: seq<char> := "https://richmondstudio.global/api"

  function LStripSlash(s: seq<char>): (r: seq<char>)
    ensures |r| <= |s|
    ensures r == [] || r[0] != '/'
  {
    if s != [] && s[0] == '/' then LStripSlash(s[1..]) else s
  }

  function RStripSlash(s: seq<char>): seq<char> {
    if s != [] && s[|s| - 1] == '/' then RStripSlash(s[..|s| - 1]) else s
  }

  /** `_resolve_next_url`. */
  function ResolveNextUrl(next: Option<seq<char>>): Option<seq<char>> {
    if next.None? || next.value == [] then None
    else if "http" <= next.value then next
    else Some(RStripSlash(RsBaseUrl) + "/" + LStripSlash(next.value))
  }

  /** Leading slashes removed leave a suffix preceded by slashes only. */
  lemma {:induction false} LStripSlashSuffix(s: seq<char>)
    ensures |LStripSlash(s)| <= |s| && s[|s| - |LStripSlash(s)|..] == LStripSlash(s)
    ensures forall i :: 0 <= i < |s| - |LStripSlash(s)| ==> s[i] == '/'
  {
    if s != [] && s[0] == '/' {
      LStripSlashSuffix(s[1..]);
      assert forall i :: 1 <= i < |s| ==> s[i] == s[1..][i - 1];
    }
  }

  /**
   * No link gives no page and an absolute link is kept; a relative link is
   * the base URL, exactly one slash, and the link without its leading slashes.
   */
  lemma ResolveNextUrlMeaning(next: Option<seq<char>>)
    ensures next.None? || next == Some([]) ==> ResolveNextUrl(next).None?
    ensures next.Some? && "http" <= next.value ==> ResolveNextUrl(next) == next
    ensures next.Some? && next.value != [] && !("http" <= next.value) ==>
      var rest := LStripSlash(next.value);
      ResolveNextUrl(next) == Some(RsBaseUrl + "/" + rest) && (rest == [] || rest[0] != '/') &&
      next.value[|next.value| - |rest|..] == rest &&
      forall i :: 0 <= i < |next.value| - |rest| ==> next.value[i] == '/'
  {
    assert RsBaseUrl[|RsBaseUrl| - 1] == 'i';
    if next.Some? {
      LStripSlashSuffix(next.value);
    }
  }

  /** The attributes of a group creation request; the dates are ISO texts. */
  datatype Attributes = Attributes(name: seq<char>, description: seq<char>, grade: seq<char>,
                                   startDate: seq<char>, endDate: seq<char>, gradeLevel: Option<seq<char>>)

  /** `_build_payload`: the grade level is sent only when given and non-empty. */
  function BuildPayload(name: seq<char>, grade: seq<char>, gradeLevel: Option<seq<char>>,
                        startDate: seq<char>, endDate: seq<char>): Attributes {
    Attributes(name, name, grade, startDate, endDate,
               if gradeLevel.Some? && gradeLevel.value != [] then gradeLevel else None)
  }

  /** The description repeats the name, and the grade level is present iff a non-empty one is given. */
  lemma BuildPayloadMeaning(name: seq<char>, grade: seq<char>, gradeLevel: Option<seq<char>>,
                            startDate: seq<char>, endDate: seq<char>)
    ensures var a := BuildPayload(name, grade, gradeLevel, startDate, endDate);
      a.description == a.name == name && a.grade == grade &&
      (a.gradeLevel.Some? <==> gradeLevel.Some? && gradeLevel.value != []) &&
      (a.gradeLevel.Some? ==> a.gradeLevel == gradeLevel)
  {
  }
}
