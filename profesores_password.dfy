/**
 * Teacher login/password update (santillana_format/profesores_password.py):
 * the level letters of a spreadsheet row, the per-persona consolidation of
 * the rows, the header canonicalisation, and the update pass that issues one
 * remote call per (persona, level). The flag and persona-id readers are the
 * same as the class reconciliation's and are reused from ProfesoresClases.
 */
module ProfesoresPassword {
  import opened Text
  import PC = ProfesoresClases

  /** `LEVEL_ID_BY_LETTER`. */
  function LevelId(letter: char): (id: int)
    requires PC.IsLevelLetter(letter)
    ensures 38 <= id <= 40
  {
    match letter
    case 'I' => 38
    case 'P' => 39
    case 'S' => 40
  }

  lemma LevelIdInjective(a: char, b: char)
    requires PC.IsLevelLetter(a) && PC.IsLevelLetter(b)
    ensures LevelId(a) == LevelId(b) <==> a == b
  {
  }

  // ---------------------------------------------------------------- level letters

  /** The level letters of the row's set grade columns. */
  function GradeLetters(row: PC.Row, gradeCols: seq<seq<char>>): set<char> {
    set pair | pair in PC.MarkedGrades(row, gradeCols) :: pair.0
  }

  /** `_extract_level_letters`: the grade columns decide; the level columns only when no grade column is set. */
  function Letters(row: PC.Row, gradeCols: seq<seq<char>>, levelCols: seq<seq<char>>): set<char> {
    var g := GradeLetters(row, gradeCols);
    if g != {} then g else PC.MarkedLevels(row, levelCols)
  }

  /** Every marked pair names a level letter. */
  lemma {:induction false} MarkedGradesAreLevels(row: PC.Row, gradeCols: seq<seq<char>>)
    ensures forall pair :: pair in PC.MarkedGrades(row, gradeCols) ==> PC.IsLevelLetter(pair.0)
  {
    if gradeCols != [] {
      MarkedGradesAreLevels(row, gradeCols[..|gradeCols| - 1]);
    }
  }

  lemma {:induction false} MarkedLevelsAreLevels(row: PC.Row, levelCols: seq<seq<char>>)
    ensures forall l :: l in PC.MarkedLevels(row, levelCols) ==> PC.IsLevelLetter(l)
  {
    if levelCols != [] {
      MarkedLevelsAreLevels(row, levelCols[..|levelCols| - 1]);
    }
  }

  /** The letters are level letters; so the lookup of a level id never misses and no letter is skipped. */
  lemma LettersAreLevels(row: PC.Row, gradeCols: seq<seq<char>>, levelCols: seq<seq<char>>)
    ensures forall l :: l in Letters(row, gradeCols, levelCols) ==> PC.IsLevelLetter(l)
  {
    MarkedGradesAreLevels(row, gradeCols);
    MarkedLevelsAreLevels(row, levelCols);
  }

  /**
   * Once a grade column is set, the level columns are not consulted: two rows
   * that agree on the grade columns get the same letters.
   */
  lemma LevelColumnsIgnoredWhenGraded(row: PC.Row, other: PC.Row, gradeCols: seq<seq<char>>, levelCols: seq<seq<char>>)
    requires PC.MarkedGrades(row, gradeCols) == PC.MarkedGrades(other, gradeCols) != {}
    ensures Letters(row, gradeCols, levelCols) == Letters(other, gradeCols, levelCols)
  {
    var pair :| pair in PC.MarkedGrades(row, gradeCols);
    assert pair.0 in GradeLetters(row, gradeCols);
  }

  /** With no grade column set, the letters are those of the set level columns. */
  lemma LettersFromLevels(row: PC.Row, gradeCols: seq<seq<char>>, levelCols: seq<seq<char>>)
    requires PC.MarkedGrades(row, gradeCols) == {}
    ensures Letters(row, gradeCols, levelCols) == PC.MarkedLevels(row, levelCols)
  {
  }

  lemma GradeLettersStep(row: PC.Row, cols: seq<seq<char>>, j: nat)
    requires j < |cols| && cols[j] in PC.GradeColumns
    ensures GradeLetters(row, cols[..j + 1]) ==
      GradeLetters(row, cols[..j]) + if PC.IsTruthy(PC.CellAt(row, cols[j])) then {PC.GradeColumns[cols[j]].0} else {}
  {
    assert cols[..j + 1][..j] == cols[..j];
  }

  lemma MarkedLevelsStep(row: PC.Row, cols: seq<seq<char>>, j: nat)
    requires j < |cols| && cols[j] in PC.LevelColumns
    ensures PC.MarkedLevels(row, cols[..j + 1]) ==
      PC.MarkedLevels(row, cols[..j]) + if PC.IsTruthy(PC.CellAt(row, cols[j])) then {PC.LevelColumns[cols[j]]} else {}
  {
    assert cols[..j + 1][..j] == cols[..j];
  }

  /** `_extract_level_letters`, column by column. */
  method ExtractLevelLetters(row: PC.Row, gradeCols: seq<seq<char>>, levelCols: seq<seq<char>>)
    returns (letters: set<char>)
    requires PC.GradeColumnsOnly(gradeCols) && PC.LevelColumnsOnly(levelCols)
    ensures letters == Letters(row, gradeCols, levelCols)
  {
    letters := {};
    for j := 0 to |gradeCols|
      invariant letters == GradeLetters(row, gradeCols[..j])
    {
      GradeLettersStep(row, gradeCols, j);
      var col := gradeCols[j];
      if PC.IsTruthy(PC.CellAt(row, col)) {
        letters := letters + {PC.GradeColumns[col].0};
      }
    }
    assert gradeCols[..|gradeCols|] == gradeCols;
    if letters != {} {
      return;
    }
    for j := 0 to |levelCols|
      invariant letters == PC.MarkedLevels(row, levelCols[..j])
    {
      MarkedLevelsStep(row, levelCols, j);
      var col := levelCols[j];
      if PC.IsTruthy(PC.CellAt(row, col)) {
        letters := letters + {PC.LevelColumns[col]};
      }
    }
    assert levelCols[..|levelCols|] == levelCols;
  }

  // ---------------------------------------------------------------- consolidation

  /** The persona id, login and password of a row. */
  function RowPersona(row: PC.Row): Option<int> { PC.ParsePersonaId(PC.CellAt(row, "Persona ID")) }
  function RowLogin(row: PC.Row): seq<char> { Strip(PC.CellAt(row, "Login").s) }
  function RowPassword(row: PC.Row): seq<char> { Strip(PC.CellAt(row, "Password").s) }

  /** What the loop reads from one row: persona id, trimmed login and password, level letters. */
  datatype Parsed = Parsed(persona: Option<int>, login: seq<char>, password: seq<char>, letters: set<char>)

  function ParseRow(row: PC.Row, gradeCols: seq<seq<char>>, levelCols: seq<seq<char>>): Parsed {
    Parsed(RowPersona(row), RowLogin(row), RowPassword(row), Letters(row, gradeCols, levelCols))
  }

  function ParseRows(rows: seq<PC.Row>, gradeCols: seq<seq<char>>, levelCols: seq<seq<char>>): (ps: seq<Parsed>)
    ensures |ps| == |rows|
    ensures forall i :: 0 <= i < |rows| ==> ps[i] == ParseRow(rows[i], gradeCols, levelCols)
  {
    seq(|rows|, i requires 0 <= i < |rows| => ParseRow(rows[i], gradeCols, levelCols))
  }

  /** A row without a usable persona id (absent or 0), login or password. */
  predicate Incomplete(r: Parsed) {
    r.persona == None || r.persona == Some(0) || r.login == [] || r.password == []
  }

  /** A row that enters the consolidation. */
  predicate Accepted(r: Parsed) {
    !Incomplete(r) && r.letters != {}
  }

  /** The credentials and levels kept for one persona. */
  datatype Entry = Entry(login: seq<char>, password: seq<char>, levels: set<char>)

  /** A warning of the consolidation; rows are numbered as the spreadsheet shows them (first data row is 2). */
  datatype Warning = MissingFields(row: int) | NoLevels(row: int) | Conflict(persona: int)

  /** The records dictionary, its insertion order and the warnings so far. */
  datatype Records = Records(entries: map<int, Entry>, order: seq<int>, warnings: seq<Warning>)

  /** One row of the loop of `actualizar_passwords_docentes`. */
  function Step(r: Records, row: Parsed, rowNum: int): Records {
    if Incomplete(row) then r.(warnings := r.warnings + [MissingFields(rowNum)])
    else if row.letters == {} then r.(warnings := r.warnings + [NoLevels(rowNum)])
    else
      var p := row.persona.value;
      if p !in r.entries then
        Records(r.entries[p := Entry(row.login, row.password, row.letters)], r.order + [p], r.warnings)
      else
        var e := r.entries[p];
        var conflict := if e.login != row.login || e.password != row.password then [Conflict(p)] else [];
        Records(r.entries[p := e.(levels := e.levels + row.letters)], r.order, r.warnings + conflict)
  }

  /** The records after the rows. */
  function Consolidate(rows: seq<Parsed>): Records {
    if rows == [] then Records(map[], [], [])
    else
      var n := |rows| - 1;
      Step(Consolidate(rows[..n]), rows[n], n + 2)
  }

  /** The positions of the accepted rows of persona `p`, in order. */
  function PersonaRows(rows: seq<Parsed>, p: int): (ix: seq<nat>)
    ensures forall k :: 0 <= k < |ix| ==> ix[k] < |rows|
  {
    if rows == [] then []
    else
      var n := |rows| - 1;
      PersonaRows(rows[..n], p) + if Accepted(rows[n]) && rows[n].persona == Some(p) then [n] else []
  }

  /** The union of the letters of the given rows. */
  function LettersOfRows(rows: seq<Parsed>, ix: seq<nat>): set<char>
    requires forall k :: 0 <= k < |ix| ==> ix[k] < |rows|
  {
    if ix == [] then {}
    else LettersOfRows(rows, ix[..|ix| - 1]) + rows[ix[|ix| - 1]].letters
  }

  /** Whether two rows carry different credentials. */
  predicate Differ(a: Parsed, b: Parsed) {
    a.login != b.login || a.password != b.password
  }

  /** Whether some accepted row of `p` after its first carries other credentials. */
  predicate HasConflict(rows: seq<Parsed>, ix: seq<nat>)
    requires forall k :: 0 <= k < |ix| ==> ix[k] < |rows|
  {
    exists k :: 1 <= k < |ix| && Differ(rows[ix[k]], rows[ix[0]])
  }

  /** The letters of the listed rows, read in a longer sheet. */
  lemma {:induction false} LettersOfRowsPrefix(rows: seq<Parsed>, n: nat, ix: seq<nat>)
    requires n <= |rows| && forall k :: 0 <= k < |ix| ==> ix[k] < n
    ensures LettersOfRows(rows[..n], ix) == LettersOfRows(rows, ix)
  {
    if ix != [] {
      LettersOfRowsPrefix(rows, n, ix[..|ix| - 1]);
    }
  }

  /** A conflict among the first rows is one among all of them, and one more row adds at most its own. */
  lemma ConflictStep(rows: seq<Parsed>, ix0: seq<nat>, n: nat)
    requires n == |rows| - 1
    requires forall k :: 0 <= k < |ix0| ==> ix0[k] < n
    ensures HasConflict(rows[..n], ix0) <==> HasConflict(rows, ix0)
    ensures ix0 != [] ==>
      (HasConflict(rows, ix0 + [n]) <==> HasConflict(rows, ix0) || Differ(rows[n], rows[ix0[0]]))
  {
    var pre := rows[..n];
    assert forall k :: 0 <= k < |ix0| ==> pre[ix0[k]] == rows[ix0[k]];
    if HasConflict(pre, ix0) {
      var k :| 1 <= k < |ix0| && Differ(pre[ix0[k]], pre[ix0[0]]);
    }
    if HasConflict(rows, ix0) {
      var k :| 1 <= k < |ix0| && Differ(rows[ix0[k]], rows[ix0[0]]);
    }
    if ix0 != [] {
      var ix := ix0 + [n];
      if HasConflict(rows, ix) {
        var k :| 1 <= k < |ix| && Differ(rows[ix[k]], rows[ix[0]]);
        if k < |ix0| {
          assert ix[k] == ix0[k];
        }
      }
      if HasConflict(rows, ix0) {
        var k :| 1 <= k < |ix0| && Differ(rows[ix0[k]], rows[ix0[0]]);
        assert ix[k] == ix0[k];
      }
      if Differ(rows[n], rows[ix0[0]]) {
        assert ix[|ix0|] == n;
      }
    }
  }

  /** What one row does to the entry of persona `p`. */
  lemma StepEntry(r: Records, row: Parsed, rowNum: int, p: int)
    ensures var r', hit := Step(r, row, rowNum), Accepted(row) && row.persona == Some(p);
      && (p in r'.entries <==> p in r.entries || hit)
      && (p in r'.order <==> p in r.order || (hit && p !in r.entries))
      && (p in r.entries ==> && r'.entries[p].login == r.entries[p].login
                             && r'.entries[p].password == r.entries[p].password
                             && r'.entries[p].levels == r.entries[p].levels + (if hit then row.letters else {}))
      && (p !in r.entries && hit ==> r'.entries[p] == Entry(row.login, row.password, row.letters))
      && (Conflict(p) in r'.warnings <==>
            (Conflict(p) in r.warnings
             || (hit && p in r.entries && (r.entries[p].login != row.login || r.entries[p].password != row.password))))
  {
  }

  /** The records and accepted rows after one more row, as far as persona `p` goes. */
  lemma ConsolidateSnoc(rows: seq<Parsed>, p: int)
    requires rows != []
    ensures var n := |rows| - 1;
      && Consolidate(rows) == Step(Consolidate(rows[..n]), rows[n], n + 2)
      && PersonaRows(rows, p) == PersonaRows(rows[..n], p) + if Accepted(rows[n]) && rows[n].persona == Some(p) then [n] else []
  {
  }

  /** Persona `p` has an entry iff some row of it was accepted, and then it is in the insertion order. */
  lemma {:induction false} ConsolidateKeys(rows: seq<Parsed>, p: int)
    ensures var r, ix := Consolidate(rows), PersonaRows(rows, p);
      && (p in r.entries <==> ix != [])
      && (p in r.entries <==> p in r.order)
  {
    if rows != [] {
      var n := |rows| - 1;
      ConsolidateKeys(rows[..n], p);
      ConsolidateSnoc(rows, p);
      StepEntry(Consolidate(rows[..n]), rows[n], n + 2, p);
    }
  }

  /** The entry of `p` keeps the first accepted row's login and password and the union of the letters of all its accepted rows. */
  lemma {:induction false} ConsolidateEntry(rows: seq<Parsed>, p: int)
    requires PersonaRows(rows, p) != []
    ensures var r, ix := Consolidate(rows), PersonaRows(rows, p);
      && p in r.entries
      && r.entries[p].login == rows[ix[0]].login
      && r.entries[p].password == rows[ix[0]].password
      && r.entries[p].levels == LettersOfRows(rows, ix)
  {
    var n := |rows| - 1;
    var pre := rows[..n];
    var ix0 := PersonaRows(pre, p);
    ConsolidateSnoc(rows, p);
    ConsolidateKeys(pre, p);
    StepEntry(Consolidate(pre), rows[n], n + 2, p);
    var ix := PersonaRows(rows, p);
    if ix0 != [] {
      ConsolidateEntry(pre, p);
      assert pre[ix0[0]] == rows[ix0[0]];
      LettersOfRowsPrefix(rows, n, ix0);
      if Accepted(rows[n]) && rows[n].persona == Some(p) {
        assert ix[..|ix| - 1] == ix0 && ix[|ix| - 1] == n;
      } else {
        assert ix == ix0;
      }
    } else {
      assert ix == [n];
      assert ix[..0] == [];
    }
  }

  /** A conflict is warned about for `p` iff a later accepted row of it carries other credentials than its first. */
  lemma {:induction false} ConsolidateConflict(rows: seq<Parsed>, p: int)
    ensures Conflict(p) in Consolidate(rows).warnings <==> HasConflict(rows, PersonaRows(rows, p))
  {
    if rows != [] {
      var n := |rows| - 1;
      var pre := rows[..n];
      var ix0 := PersonaRows(pre, p);
      ConsolidateConflict(pre, p);
      ConsolidateSnoc(rows, p);
      ConsolidateKeys(pre, p);
      StepEntry(Consolidate(pre), rows[n], n + 2, p);
      ConflictStep(rows, ix0, n);
      if ix0 != [] {
        ConsolidateEntry(pre, p);
        assert pre[ix0[0]] == rows[ix0[0]];
        if !(Accepted(rows[n]) && rows[n].persona == Some(p)) {
          assert PersonaRows(rows, p) == ix0;
        }
      } else if Accepted(rows[n]) && rows[n].persona == Some(p) {
        assert !HasConflict(rows, [n]);
      }
    }
  }

  /** The warnings name exactly the incomplete rows and, among the complete ones, the rows without levels. */
  lemma {:induction false} ConsolidateRowWarnings(rows: seq<Parsed>, i: int)
    ensures var r := Consolidate(rows);
      && (MissingFields(i + 2) in r.warnings <==> 0 <= i < |rows| && Incomplete(rows[i]))
      && (NoLevels(i + 2) in r.warnings <==> 0 <= i < |rows| && !Incomplete(rows[i]) && rows[i].letters == {})
  {
    if rows != [] {
      var n := |rows| - 1;
      ConsolidateRowWarnings(rows[..n], i);
      if 0 <= i < n {
        assert rows[..n][i] == rows[i];
      }
    }
  }

  /** The entries of the records and their insertion order. */
  ghost predicate WellOrdered(r: Records) {
    && (forall i, j :: 0 <= i < j < |r.order| ==> r.order[i] != r.order[j])
    && (forall p :: p in r.entries <==> p in r.order)
    && (forall p :: p in r.entries ==> r.entries[p].levels != {} && forall l :: l in r.entries[p].levels ==> PC.IsLevelLetter(l))
  }

  /** Every persona is listed once in the insertion order, with a non-empty set of level letters. */
  lemma {:induction false} ConsolidateWellOrdered(rows: seq<Parsed>)
    requires forall i :: 0 <= i < |rows| ==> forall l :: l in rows[i].letters ==> PC.IsLevelLetter(l)
    ensures WellOrdered(Consolidate(rows))
  {
    if rows != [] {
      var n := |rows| - 1;
      ConsolidateWellOrdered(rows[..n]);
    }
  }

  lemma ConsolidateNext(ps: seq<Parsed>, i: nat)
    requires i < |ps|
    ensures Consolidate(ps[..i + 1]) == Step(Consolidate(ps[..i]), ps[i], i + 2)
  {
    assert ps[..i + 1][..i] == ps[..i];
  }

  /** `actualizar_passwords_docentes`' loop over the rows. */
  method ConsolidateRows(rows: seq<PC.Row>, gradeCols: seq<seq<char>>, levelCols: seq<seq<char>>)
    returns (entries: map<int, Entry>, order: seq<int>, warnings: seq<Warning>)
    requires PC.GradeColumnsOnly(gradeCols) && PC.LevelColumnsOnly(levelCols)
    ensures Records(entries, order, warnings) == Consolidate(ParseRows(rows, gradeCols, levelCols))
  {
    ghost var ps := ParseRows(rows, gradeCols, levelCols);
    entries, order, warnings := map[], [], [];
    for i := 0 to |rows|
      invariant Records(entries, order, warnings) == Consolidate(ps[..i])
    {
      ConsolidateNext(ps, i);
      entries, order, warnings := AddRow(entries, order, warnings, rows[i], i + 2, gradeCols, levelCols);
    }
    assert ps[..|rows|] == ps;
  }

  /** One pass of that loop: the row numbered `rowNum` on the sheet. */
  method AddRow(entries: map<int, Entry>, order: seq<int>, warnings: seq<Warning>, row: PC.Row, rowNum: int,
                gradeCols: seq<seq<char>>, levelCols: seq<seq<char>>)
    returns (entries': map<int, Entry>, order': seq<int>, warnings': seq<Warning>)
    requires PC.GradeColumnsOnly(gradeCols) && PC.LevelColumnsOnly(levelCols)
    ensures Records(entries', order', warnings') ==
      Step(Records(entries, order, warnings), ParseRow(row, gradeCols, levelCols), rowNum)
  {
    entries', order', warnings' := entries, order, warnings;
    var pid, login, password := RowPersona(row), RowLogin(row), RowPassword(row);
    if pid == None || pid == Some(0) || login == [] || password == [] {
      warnings' := warnings + [MissingFields(rowNum)];
      return;
    }
    var letters := ExtractLevelLetters(row, gradeCols, levelCols);
    if letters == {} {
      warnings' := warnings + [NoLevels(rowNum)];
      return;
    }
    var p := pid.value;
    if p !in entries {
      entries' := entries[p := Entry(login, password, letters)];
      order' := order + [p];
    } else {
      var e := entries[p];
      if e.login != login || e.password != password {
        warnings' := warnings + [Conflict(p)];
      }
      entries' := entries[p := e.(levels := e.levels + letters)];
    }
  }

  // ---------------------------------------------------------------- the update pass

  /** `sorted(levels)` for a set of level letters: `I` before `P` before `S`. */
  function SortedLetters(levels: set<char>): (r: seq<char>)
    ensures forall i, j :: 0 <= i < j < |r| ==> r[i] < r[j]
    ensures forall l :: l in r <==> l in levels && PC.IsLevelLetter(l)
  {
    (if 'I' in levels then "I" else []) + (if 'P' in levels then "P" else []) + (if 'S' in levels then "S" else [])
  }

  /** A set of level letters is listed in full, once each. */
  lemma SortedLettersCount(levels: set<char>)
    requires forall l :: l in levels ==> PC.IsLevelLetter(l)
    ensures |SortedLetters(levels)| == |levels|
  {
    DistinctCount(SortedLetters(levels), levels);
  }

  /** The (persona, level id) calls for one persona, in sorted letter order. */
  function PersonaCalls(p: int, levels: set<char>): (cs: seq<(int, int)>)
    ensures |cs| == |SortedLetters(levels)|
  {
    var ls := SortedLetters(levels);
    seq(|ls|, k requires 0 <= k < |ls| => (p, LevelId(ls[k])))
  }

  /** The calls of the update pass, persona by persona in insertion order. */
  function Calls(order: seq<int>, entries: map<int, Entry>): seq<(int, int)>
  {
    if order == [] then []
    else
      var p := order[|order| - 1];
      Calls(order[..|order| - 1], entries) + if p in entries then PersonaCalls(p, entries[p].levels) else []
  }

  lemma CallsSnoc(order: seq<int>, i: nat, entries: map<int, Entry>)
    requires i < |order| && order[i] in entries
    ensures Calls(order[..i + 1], entries) == Calls(order[..i], entries) + PersonaCalls(order[i], entries[order[i]].levels)
  {
    assert order[..i + 1][..i] == order[..i] && order[..i + 1][i] == order[i];
  }

  /** `niveles_total`: the sum of the sizes of the level sets. */
  function TotalLevels(order: seq<int>, entries: map<int, Entry>): nat
  {
    if order == [] then 0
    else
      var p := order[|order| - 1];
      TotalLevels(order[..|order| - 1], entries) + if p in entries then |entries[p].levels| else 0
  }

  /** One call per (persona, level): the plan has `niveles_total` calls. */
  lemma {:induction false} CallsCount(order: seq<int>, entries: map<int, Entry>)
    requires forall p :: p in entries ==> forall l :: l in entries[p].levels ==> PC.IsLevelLetter(l)
    ensures |Calls(order, entries)| == TotalLevels(order, entries)
  {
    if order != [] {
      CallsCount(order[..|order| - 1], entries);
      var p := order[|order| - 1];
      if p in entries {
        SortedLettersCount(entries[p].levels);
      }
    }
  }

  /** Every call is for a listed persona and one of its levels, and every such pair is called. */
  lemma {:induction false} CallsMeaning(order: seq<int>, entries: map<int, Entry>, p: int, l: char)
    requires forall q :: q in order ==> q in entries
    requires PC.IsLevelLetter(l)
    ensures (p, LevelId(l)) in Calls(order, entries) <==> p in order && l in entries[p].levels
  {
    if order != [] {
      var q := order[|order| - 1];
      var pre := order[..|order| - 1];
      CallsMeaning(pre, entries, p, l);
      var cs := PersonaCalls(q, entries[q].levels);
      var ls := SortedLetters(entries[q].levels);
      if p == q && l in entries[q].levels {
        var k :| 0 <= k < |ls| && ls[k] == l;
        assert cs[k] == (p, LevelId(l));
      }
      if (p, LevelId(l)) in cs {
        var k :| 0 <= k < |cs| && cs[k] == (p, LevelId(l));
        LevelIdInjective(ls[k], l);
      }
      assert p in order <==> p in pre || p == q;
    }
  }

  /** A failed update: the persona and level id of the call. */
  datatype UpdateError = UpdateError(persona: int, nivelId: int)

  /**
   * The failed calls, in order, when the first of them is the `base`-th
   * remote call of the run; `updateOk(k, persona, nivelId)` is the outcome
   * of the `k`-th call.
   */
  function Failures(calls: seq<(int, int)>, base: nat, updateOk: (nat, int, int) -> bool): seq<UpdateError> {
    if calls == [] then []
    else
      var k := |calls| - 1;
      Failures(calls[..k], base, updateOk)
        + if updateOk(base + k, calls[k].0, calls[k].1) then [] else [UpdateError(calls[k].0, calls[k].1)]
  }

  /** Each failure is one failed call, and there are at most as many failures as calls. */
  lemma {:induction false} FailuresMeaning(calls: seq<(int, int)>, base: nat, updateOk: (nat, int, int) -> bool)
    ensures |Failures(calls, base, updateOk)| <= |calls|
    ensures forall e :: e in Failures(calls, base, updateOk) ==>
              exists k :: 0 <= k < |calls| && calls[k] == (e.persona, e.nivelId) && !updateOk(base + k, e.persona, e.nivelId)
    ensures (forall k :: 0 <= k < |calls| ==> updateOk(base + k, calls[k].0, calls[k].1)) ==> Failures(calls, base, updateOk) == []
  {
    if calls != [] {
      var n := |calls| - 1;
      FailuresMeaning(calls[..n], base, updateOk);
      forall e | e in Failures(calls, base, updateOk)
        ensures exists k :: 0 <= k < |calls| && calls[k] == (e.persona, e.nivelId) && !updateOk(base + k, e.persona, e.nivelId)
      {
        if e in Failures(calls[..n], base, updateOk) {
          var k :| 0 <= k < n && calls[..n][k] == (e.persona, e.nivelId) && !updateOk(base + k, e.persona, e.nivelId);
          assert calls[k] == calls[..n][k];
        } else {
          assert calls[n] == (e.persona, e.nivelId);
        }
      }
      if forall k :: 0 <= k < |calls| ==> updateOk(base + k, calls[k].0, calls[k].1) {
        assert forall k :: 0 <= k < n ==> calls[..n][k] == calls[k];
      }
    }
  }

  /** The failures of two runs of calls, one after the other. */
  lemma {:induction false} FailuresAppend(a: seq<(int, int)>, b: seq<(int, int)>, base: nat, updateOk: (nat, int, int) -> bool)
    ensures Failures(a + b, base, updateOk) == Failures(a, base, updateOk) + Failures(b, base + |a|, updateOk)
  {
    if b == [] {
      assert a + b == a;
    } else {
      var n := |b| - 1;
      FailuresAppend(a, b[..n], base, updateOk);
      assert (a + b)[..|a + b| - 1] == a + b[..n];
      assert (a + b)[|a + b| - 1] == b[n];
    }
  }

  /** The update calls for one persona, one per level in sorted order, starting at the `base`-th call. */
  method UpdatePersona(p: int, levels: set<char>, base: nat, updateOk: (nat, int, int) -> bool)
    returns (updated: nat, errors: seq<UpdateError>)
    ensures errors == Failures(PersonaCalls(p, levels), base, updateOk)
    ensures updated + |errors| == |PersonaCalls(p, levels)|
  {
    var letters := SortedLetters(levels);
    ghost var cs := PersonaCalls(p, levels);
    updated, errors := 0, [];
    for j := 0 to |letters|
      invariant errors == Failures(cs[..j], base, updateOk)
      invariant updated + |errors| == j
    {
      var nivelId := LevelId(letters[j]);
      assert cs[..j + 1][..j] == cs[..j] && cs[j] == (p, nivelId);
      var ok := updateOk(base + j, p, nivelId);
      if !ok {
        errors := errors + [UpdateError(p, nivelId)];
        continue;
      }
      updated := updated + 1;
    }
    assert cs[..|letters|] == cs;
  }

  /** The calls and failures after one more persona. */
  lemma ApplyStep(order: seq<int>, i: nat, entries: map<int, Entry>, updateOk: (nat, int, int) -> bool)
    requires i < |order| && order[i] in entries
    ensures var before, cs := Calls(order[..i], entries), PersonaCalls(order[i], entries[order[i]].levels);
      && Calls(order[..i + 1], entries) == before + cs
      && Failures(Calls(order[..i + 1], entries), 0, updateOk)
         == Failures(before, 0, updateOk) + Failures(cs, |before|, updateOk)
  {
    CallsSnoc(order, i, entries);
    FailuresAppend(Calls(order[..i], entries), PersonaCalls(order[i], entries[order[i]].levels), 0, updateOk);
  }

  /**
   * The apply branch: for each persona in insertion order and each of its
   * letters in sorted order, one update call; a success counts as an
   * update, a failure as an API error with its persona and level.
   */
  method ApplyUpdates(order: seq<int>, entries: map<int, Entry>, updateOk: (nat, int, int) -> bool)
    returns (actualizaciones: nat, errors: seq<UpdateError>)
    requires forall p :: p in order ==> p in entries
    ensures errors == Failures(Calls(order, entries), 0, updateOk)
    ensures actualizaciones + |errors| == |Calls(order, entries)|
  {
    actualizaciones, errors := 0, [];
    var current := 0;
    for i := 0 to |order|
      invariant current == |Calls(order[..i], entries)|
      invariant errors == Failures(Calls(order[..i], entries), 0, updateOk)
      invariant actualizaciones + |errors| == current
    {
      var p := order[i];
      assert p in order;
      var updated, errs := UpdatePersona(p, entries[p].levels, current, updateOk);
      ApplyStep(order, i, entries, updateOk);
      errors := errors + errs;
      actualizaciones := actualizaciones + updated;
      current := current + |PersonaCalls(p, entries[p].levels)|;
    }
    assert order[..|order|] == order;
  }

  /** The returned summary of `actualizar_passwords_docentes`. */
  datatype Summary = Summary(docentesTotal: nat, nivelesTotal: nat, actualizaciones: nat, erroresApi: nat)

  /**
   * `actualizar_passwords_docentes` after the sheet is read: a dry run
   * returns the consolidation's counts with no update; an apply run issues
   * one call per (persona, level), and every call is an update or an error.
   */
  method ActualizarPasswords(rows: seq<PC.Row>, gradeCols: seq<seq<char>>, levelCols: seq<seq<char>>,
                             dryRun: bool, updateOk: (nat, int, int) -> bool)
    returns (summary: Summary, warnings: seq<Warning>, errors: seq<UpdateError>)
    requires PC.GradeColumnsOnly(gradeCols) && PC.LevelColumnsOnly(levelCols)
    ensures var r := Consolidate(ParseRows(rows, gradeCols, levelCols));
            && warnings == r.warnings
            && summary.docentesTotal == |r.entries|
            && summary.nivelesTotal == |Calls(r.order, r.entries)|
    ensures dryRun ==> summary.actualizaciones == 0 && summary.erroresApi == 0 && errors == []
    ensures !dryRun ==> var r := Consolidate(ParseRows(rows, gradeCols, levelCols));
            && errors == Failures(Calls(r.order, r.entries), 0, updateOk)
            && summary.erroresApi == |errors|
            && summary.actualizaciones + summary.erroresApi == summary.nivelesTotal
  {
    var entries, order;
    entries, order, warnings := ConsolidateRows(rows, gradeCols, levelCols);
    ghost var ps := ParseRows(rows, gradeCols, levelCols);
    forall i | 0 <= i < |ps| ensures forall l :: l in ps[i].letters ==> PC.IsLevelLetter(l) {
      LettersAreLevels(rows[i], gradeCols, levelCols);
    }
    ConsolidateWellOrdered(ps);
    ghost var r := Consolidate(ps);
    assert entries == r.entries && order == r.order && WellOrdered(r);
    CallsCount(order, entries);
    var total := TotalLevels(order, entries);
    assert |entries| == |order| by {
      assert forall x :: x in entries.Keys <==> x in order;
      DistinctCount(order, entries.Keys);
    }
    summary := Summary(|order|, total, 0, 0);
    errors := [];
    if dryRun {
      return;
    }
    var actualizaciones;
    actualizaciones, errors := ApplyUpdates(order, entries, updateOk);
    summary := summary.(actualizaciones := actualizaciones, erroresApi := |errors|);
  }

  // ---------------------------------------------------------------- headers

  /**
   * `_normalize_header`: accents folded, then runs of characters other than
   * ASCII letters and digits become one space, trimmed and lower-cased.
   */
  function NormalizeHeader(h: seq<char>): seq<char> {
    Lower(Join(Tokens(FoldMarks(h), NotAlnum), " "))
  }

  /** A normalised header holds only lower-case letters, digits and single spaces. */
  lemma NormalizedHeaderCharacters(h: seq<char>)
    ensures forall i :: 0 <= i < |NormalizeHeader(h)| ==>
              IsLower(NormalizeHeader(h)[i]) || IsDigit(NormalizeHeader(h)[i]) || NormalizeHeader(h)[i] == ' '
  {
    var ts := Tokens(FoldMarks(h), NotAlnum);
    TokensWellFormed(FoldMarks(h), NotAlnum);
    JoinKeeps(ts, " ", c => IsAlnum(c) || c == ' ');
  }

  /** `HEADER_ALIASES`. */
  const HeaderAliases: map<seq<char>, seq<char>> := map[
    "login" := "Login", "usuario" := "Login",
    "password" := "Password", "contrasena" := "Password", "contraseña" := "Password",
    "persona id" := "Persona ID", "personaid" := "Persona ID", "persona_id" := "Persona ID",
    "id persona" := "Persona ID", "id" := "Persona ID",
    "inicial" := "Inicial", "primaria" := "Primaria", "secundaria" := "Secundaria"]

  /** The canonical name of a normalised header: an alias, a grade key `[ips][0-9]` upper-cased, or none. */
  function Canonical(key: seq<char>): (r: Option<seq<char>>)
    ensures key in HeaderAliases ==> r == Some(HeaderAliases[key])
    ensures key !in HeaderAliases && |key| == 2 && key[0] in "ips" && IsDigit(key[1]) ==> r == Some(Upper(key))
    ensures r.Some? ==> key in HeaderAliases || (|key| == 2 && key[0] in "ips" && IsDigit(key[1]))
  {
    if key in HeaderAliases then Some(HeaderAliases[key])
    else if |key| == 2 && key[0] in "ips" && IsDigit(key[1]) then Some(Upper(key))
    else None
  }

  /**
   * The renaming loop of `_canonicalize_columns`, given the canonical name
   * `names[j]` (if any) of each column `cols[j]`: a name goes to the first
   * column that has it, and no two columns get the same name.
   */
  method AssignNames(cols: seq<seq<char>>, names: seq<Option<seq<char>>>) returns (mapping: map<seq<char>, seq<char>>)
    requires |names| == |cols|
    requires forall i, j :: 0 <= i < |cols| && 0 <= j < |cols| && cols[i] == cols[j] ==> names[i] == names[j]
    ensures forall c :: c in mapping ==> exists j :: 0 <= j < |cols| && cols[j] == c && names[j] == Some(mapping[c])
    ensures forall c, d :: c in mapping && d in mapping && mapping[c] == mapping[d] ==> c == d
    ensures forall j :: 0 <= j < |cols| && names[j].Some? ==>
              exists i :: 0 <= i <= j && cols[i] in mapping && mapping[cols[i]] == names[j].value
  {
    mapping := map[];
    var used: set<seq<char>> := {};
    ghost var owner: map<seq<char>, nat> := map[];
    for j := 0 to |cols|
      invariant used == owner.Keys
      invariant forall v :: v in owner ==> owner[v] < j && cols[owner[v]] in mapping && mapping[cols[owner[v]]] == v
                                           && names[owner[v]] == Some(v)
      invariant forall c :: c in mapping ==> mapping[c] in owner && cols[owner[mapping[c]]] == c
      invariant forall i :: 0 <= i < j && names[i].Some? ==> names[i].value in owner && owner[names[i].value] <= i
    {
      var canonical := names[j];
      if canonical.Some? && canonical.value !in used {
        assert forall i :: 0 <= i < |cols| && cols[i] == cols[j] ==> names[i] == canonical;
        mapping := mapping[cols[j] := canonical.value];
        used := used + {canonical.value};
        owner := owner[canonical.value := j];
      }
    }
    forall c | c in mapping
      ensures exists j :: 0 <= j < |cols| && cols[j] == c && names[j] == Some(mapping[c])
    {
      var j := owner[mapping[c]];
    }
    forall j | 0 <= j < |cols| && names[j].Some?
      ensures exists i :: 0 <= i <= j && cols[i] in mapping && mapping[cols[i]] == names[j].value
    {
      var i := owner[names[j].value];
    }
  }

  /**
   * The accented alias `contraseña` is never looked up: normalisation folds
   * the accent away, so a `Contraseña` header reaches the unaccented alias
   * (`AccentedPasswordHeader`).
   */
  lemma AccentedAliasUnreachable(h: seq<char>)
    ensures NormalizeHeader(h) != "contraseña"
  {
    NormalizedHeaderCharacters(h);
    var accented := "contraseña";
    assert accented[8] == 'ñ' && !IsLower('ñ') && !IsDigit('ñ') && 'ñ' != ' ';
  }

  /** A `Contraseña` header is the password column. */
  lemma AccentedPasswordHeader()
    ensures NormalizeHeader("Contraseña") == "contrasena"
    ensures Canonical(NormalizeHeader("Contraseña")) == Some("Password")
  {
    var w := FoldMarks("Contraseña");
    FoldContrasena();
    TokensOfWord(w, NotAlnum);
    assert Join([w], " ") == w;
    LowerContrasena(w);
    PasswordAlias();
  }

  lemma FoldContrasena()
    ensures FoldMarks("Contraseña") == "Contrasena"
  {
  }

  lemma LowerContrasena(w: seq<char>)
    requires w == "Contrasena"
    ensures Lower(w) == "contrasena"
  {
    var l := "contrasena";
    forall i | 0 <= i < |w|
      ensures Lower(w)[i] == l[i]
    {
      CaseOfLetter(w[i], l[i]);
    }
  }

  lemma CaseOfLetter(c: char, d: char)
    requires c == d || (IsUpper(c) && d as int == c as int + 32)
    requires IsLower(d)
    ensures LowerChar(c) == d
  {
  }

  lemma PasswordAlias()
    ensures Canonical("contrasena") == Some("Password")
  {
  }

  /** Headers in their usual spellings reach their canonical names. */
  lemma CanonicalOfUsualHeaders()
    ensures Canonical("persona id") == Some("Persona ID")
    ensures Canonical("p1") == Some("P1") && Canonical("s5") == Some("S5")
    ensures Canonical("p9") == Some("P9")
    ensures Canonical("x1") == None
  {
    assert Upper("p1") == "P1" && Upper("s5") == "S5" && Upper("p9") == "P9";
  }

  /** The canonical name of every column. */
  function CanonicalNames(cols: seq<seq<char>>): (names: seq<Option<seq<char>>>)
    ensures |names| == |cols|
  {
    seq(|cols|, j requires 0 <= j < |cols| => Canonical(NormalizeHeader(cols[j])))
  }

  /** `_canonicalize_columns`: the rename map from column to canonical name. */
  method CanonicalizeColumns(cols: seq<seq<char>>) returns (mapping: map<seq<char>, seq<char>>)
    ensures forall c :: c in mapping ==> exists j :: 0 <= j < |cols| && cols[j] == c && CanonicalNames(cols)[j] == Some(mapping[c])
    ensures forall c, d :: c in mapping && d in mapping && mapping[c] == mapping[d] ==> c == d
    ensures forall j :: 0 <= j < |cols| && CanonicalNames(cols)[j].Some? ==>
              exists i :: 0 <= i <= j && cols[i] in mapping && mapping[cols[i]] == CanonicalNames(cols)[j].value
  {
    mapping := AssignNames(cols, CanonicalNames(cols));
  }
}
