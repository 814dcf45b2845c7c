# santillana_compartir — verified model of the staffing reconciliation core

This project models, in Dafny, the decision logic of the `santillana_format` tools that reconcile a school's
teacher spreadsheet with the Santillana Compartir platform:

- **Teacher → class reconciliation** (`santillana_format/profesores_clases.py`): reading the teacher sheet into
  one line per (persona, course) with the levels and grades the row marks; decoding the class-name suffix
  `<grade><I|P|S><section>` / `<I|P|S><grade><section>` of the school catalog; matching a teacher's course
  against the catalog; and the planner that adds each teacher to each matched class at most once per run and,
  when asked, removes teachers that are not desired from the classes matched in the run.
- **Level / activation sync** (`santillana_format/profesores_sync.py`): consolidation of spreadsheet rows that
  share an identity key into one record per teacher (union–find), the merge of each group, the identity keys,
  the index of the platform's teachers by key, the priority lookup of each teacher, and the per-persona diff
  that decides which levels to activate or inactivate and when to reassign the level set.
- **Listing merge** (`santillana_format/profesores.py`): the fold of per-level teacher listings and per-persona
  detail payloads into one record per persona, with its level sets, its map of level to activation flag and
  the derived `Estado`.
- **Adjacent tools of the same repository**: the student listing and password update
  (`santillana_format/alumnos.py`, `santillana_format/profesores_password.py`), the class listing and clean-up
  commands (`santillana_format/cli.py`) and the creation of Richmond groups (`santillana_format/richmond_groups.py`).
- **Class templates from a CRM export**, in three versions: `processor.py` and `main.py` (Primaria and Secundaria,
  Comunicación and Matemática, one group) and `santillana_format/processor.py` (all three levels, the subject
  aliases, the sharing rules per level and grade, Tecpro and pre-school products, several groups). Each reads the
  header row, keeps the rows carrying a CRM code, maps level, grade and subject, names the class, and sorts
  (and, in the last one, de-duplicates) the template rows.
- **Student duplicates** (`santillana_format/duplicados.py`): the identity keys built from surnames, names, birth
  date, grade and group, the pairing of base and new rows that share a key, and the split of a new sheet into
  repeated and fresh rows.
- **Student comparison** (`santillana_format/alumnos_compare.py`): the tiered NUIP / surname / surname-and-initial
  matching, the counters of the classification, the login summary of the two sheets, and the comparison sheet
  that fuses each updated row with the first BD row of its login; compact dates are parsed year first, then day
  first.

Remote calls (staff listings, assignments, deletions, activation and level-assignment requests, listings and
detail requests) are not executed by the model: each is an oracle parameter — a function from the call's
position in the run and its arguments to its outcome — so every branch on success and failure is modelled,
and counters and error lists are proved against the calls made.

Where the code and its design notes differ, the model follows the code:

- class matching is a **prefix** test of the teacher's normalised course against the class's normalised name
  (`santillana_format/profesores_clases.py:656`), not an exact comparison, and no filter on the section exists
  (`ProfesoresClases.MatchIgnoresSection`);
- the `Estado` column is carried through consolidation (`santillana_format/profesores_sync.py:581-582`) but is
  never read when activations are decided: the sync works from the platform's per-level flags only;
- a class name made only of whitespace makes the suffix parser fail with an index error
  (`santillana_format/profesores_clases.py:629`); the model makes a non-blank name a precondition
  (`ProfesoresClases.ParsableName`) and the catalog read requires it of every listed entry.

Text is modelled as ASCII plus the accented Spanish letters: Unicode NFD mark stripping folds á é í ó ú ü ñ
and their capitals to their base letters and is the identity on ASCII (`Text.FoldMark`); every normaliser that
folds in the source folds here. Python's `str.isspace`, `str.split()`, `str.strip()`, `str.upper()`,
`str.lower()` and `str.isalpha()` are written out for ASCII only (`Text`): an accented letter is neither
upper-cased nor counted as a letter unless it was folded first (see "## Left out"). Regular expressions are
written as explicit character-class predicates.

Modules: `Text` (string helpers), `ProfesoresClases`, `DocentesLoad` (the read of the teacher sheet) and
`ClasesPlannerSpec`/`ClasesPlanner` (teacher → class),
`SyncRecords`, `UnionFind`, `SyncGroupsSpec`/`SyncGroups`, `Profesores`, `ProfesoresSyncSpec`/`ProfesoresSync`
(level sync and listing merge), `ProfesoresPassword`, `Alumnos`, `Cli`, `Letters` and `RichmondGroups`
(adjacent tools), `Sheet` (the header, code filter, key and grade helpers the three template builders share),
`RecordSort` (the multi-column sort), `CrmExport` (`processor.py` and `main.py`), `SantillanaSubjects` and
`SantillanaExport` (`santillana_format/processor.py`), `Duplicados`, `AlumnosCompare` and `CompactDate`.
A `…Spec` module holds the functions a loop is proved against and the lemmas about them; its partner module
holds the methods and classes that update state step by step as the source does.

`processor.py` and `main.py` have the same header detection, code filter, key normalisation, level and grade
readers and `transformar` (`Sheet`, `CrmExport`); they differ in the subject table of `_mapear_materia`, whose
`main.py` version is modelled separately (`CrmExport.MainMapearMateria`, see Findings).

## Model

| member | source | states |
|---|---|---|
| ProfesoresClases.IsTruthy | santillana_format/profesores_clases.py:545-563 | missing or NaN cells are false, a boolean is itself, a number is true iff non-zero; a text is true iff its stripped, accent-folded, stripped and upper-cased form is a truthy word, and a true text is not blank |
| ProfesoresClases.TruthyIgnoresCaseAndPadding | santillana_format/profesores_clases.py:545-563 | a word whose accent-folded upper-case form is truthy is recognised in any letter case, with or without accents, and with any whitespace padding |
| ProfesoresClases.TruthyAccentedSi | santillana_format/profesores_clases.py:558-563 | `Sí`, with its accent, is a true flag |
| ProfesoresClases.TruthyWordsAlphanumeric | santillana_format/profesores_clases.py:9 | the truthy words are non-empty capital letters and digits, so normalisation never spoils them |
| ProfesoresClases.CleanToken | santillana_format/profesores_clases.py:629-630 | the last whitespace token reduced to letters and digits is upper-case alphanumeric |
| ProfesoresClases.ParseClassSuffix | santillana_format/profesores_clases.py:626-645 | an empty name gives None; otherwise a suffix exactly when the cleaned token is `\d{1,2}[IPS][A-Z]` or `[IPS]\d{1,2}[A-Z]`, with level in I/P/S, an upper-case section and grade ≤ 99 |
| ProfesoresClases.DigitsBelow | santillana_format/profesores_clases.py:634 | one or two digits read as a grade of at most 99 |
| ProfesoresClases.CleanTokenOfLastWord | santillana_format/profesores_clases.py:629-630 | after a title ending in whitespace, the cleaned token of a name is its last word |
| ProfesoresClases.ParseGradeFirstRoundTrip | santillana_format/profesores_clases.py:626-645 | writing a valid suffix grade first after any title and parsing the name gives the suffix back |
| ProfesoresClases.ParseLevelFirstRoundTrip | santillana_format/profesores_clases.py:626-645 | writing a valid suffix level first after any title and parsing the name gives the suffix back |
| ProfesoresClases.ParsedSuffixIsToken | santillana_format/profesores_clases.py:629-644 | for a token without a leading zero, the parsed suffix written grade first or level first is the cleaned token |
| ProfesoresClases.NormalizeCourse | santillana_format/profesores_clases.py:481-489 | normalised course text (accents folded, runs of other characters made one space, upper-cased) holds only spaces, digits and capital letters |
| ProfesoresClases.NormalizeCourseFolds | santillana_format/profesores_clases.py:485-486 | accents never matter: a course and its accent-folded form normalise alike |
| ProfesoresClases.NormalizeCourseIdempotent | santillana_format/profesores_clases.py:481-489 | normalising normalised course text changes nothing |
| ProfesoresClases.NonEmptyStripped | santillana_format/profesores_clases.py:412-417 | the kept pieces are non-empty and carry no padding, never more than the pieces given |
| ProfesoresClases.SplitCourses | santillana_format/profesores_clases.py:412-417 | every course of a cell is non-empty and unpadded |
| ProfesoresClases.SplitCoursesOfJoin | santillana_format/profesores_clases.py:412-417 | courses joined by `;` split back into the same courses |
| ProfesoresClases.NonEmptyStrippedOfCourses | santillana_format/profesores_clases.py:412-417 | pieces that are already course names are kept as they are |
| ProfesoresClases.ParsePersonaId | santillana_format/profesores_clases.py:492-507 | None for missing, boolean or NaN cells; a number as is; for text, a value iff the text has a digit, and that value is not negative |
| ProfesoresClases.PersonaIdOfText | santillana_format/profesores_clases.py:500-507 | an id written among text without digits is read back |
| ProfesoresClases.GradeMapHoldsMarked | santillana_format/profesores_clases.py:515-521 | the grade pass maps a level to a grade iff that grade's column is set, never to an empty set, and is empty iff no grade column is set |
| ProfesoresClases.AddGradeHoldsMarked | santillana_format/profesores_clases.py:519-520 | adding one marked grade keeps the map holding exactly the marked pairs |
| ProfesoresClases.EmptyIffNoMarks | santillana_format/profesores_clases.py:521-523 | the grade map is empty exactly when no grade is marked |
| ProfesoresClases.LevelMapHoldsMarked | santillana_format/profesores_clases.py:523-527 | the level pass holds exactly the set level columns, each with every grade of its level |
| ProfesoresClases.MarkGradeColumns | santillana_format/profesores_clases.py:515-521 | the loop over grade columns builds the grade map, and `grade_specific` is set iff it is non-empty |
| ProfesoresClases.MarkLevelColumns | santillana_format/profesores_clases.py:523-527 | the loop over level columns builds the level map |
| ProfesoresClases.DesiredLevelsMeaning | santillana_format/profesores_clases.py:510-529 | grade-specific iff some grade column is set, and then exactly the marked (level, grade) pairs; otherwise exactly the marked levels, each with its full grade range |
| ProfesoresClases.ExtractDesiredLevels | santillana_format/profesores_clases.py:510-529 | the two passes compute the desired levels of the row |
| ProfesoresClases.GradeTexts | santillana_format/profesores_clases.py:541 | one text per grade |
| ProfesoresClases.LevelParts | santillana_format/profesores_clases.py:536-541 | at most one part per level letter |
| ProfesoresClases.FormatLevels | santillana_format/profesores_clases.py:532-542 | the summary is `sin niveles` exactly when no level is desired |
| ProfesoresClases.LevelPartsHas | santillana_format/profesores_clases.py:536-541 | a desired level yields a part |
| ProfesoresClases.LevelPartsHeads | santillana_format/profesores_clases.py:536-541 | every part starts with a desired level letter |
| ProfesoresClases.FormatLevelsAllWildcards | santillana_format/profesores_clases.py:532-542 | three wildcard levels are summarised `I:* P:* S:*` |
| ProfesoresClases.RowDocentes | santillana_format/profesores_clases.py:351-366 | one docente per course, each with the row's persona, levels and row number and its normalised course |
| ProfesoresClases.RowValidForMeaning | santillana_format/profesores_clases.py:345-349 | a docente never has persona id 0 or an empty course |
| ProfesoresClases.RowDocentesValid | santillana_format/profesores_clases.py:341-366 | every docente of a valid row comes from that row's persona id and course list |
| ProfesoresClases.RowLines | santillana_format/profesores_clases.py:341-366 | the docentes of one row: none when it is rejected, else one per course, each from that row, numbered by it (index plus 2) and carrying its desired levels and grade flag |
| ProfesoresClases.LoadRow | santillana_format/profesores_clases.py:341-366 | a row is rejected iff it lacks a usable persona id or a course; otherwise it yields exactly that row's docentes, one per course, in course order |
| ProfesoresClases.RowCountsStep | santillana_format/profesores_clases.py:341-366 | one more row adds one rejection or its course count |
| DocentesLoad.LoadedCountStep | santillana_format/profesores_clases.py:340-366 | one more row adds exactly its course lines to the docentes loaded |
| DocentesLoad.LoadedCount | santillana_format/profesores_clases.py:340-366 | the docentes of the first rows number the course lines of their valid rows |
| DocentesLoad.FromRowsAppend | santillana_format/profesores_clases.py:340-366 | appending a row's docentes keeps every docente tied to its own valid, earlier row and that row's desired levels |
| DocentesLoad.LoadDocentes | santillana_format/profesores_clases.py:327-367 | `invalidos` counts the rejected rows; the docentes are the rows' docentes in row order, one per course of each valid row, each with its row's number, persona, course and desired levels |
| ProfesoresClases.ItemClase | santillana_format/profesores_clases.py:601-621 | an entry yields at most one class, with a non-zero id, a non-blank name, its normalised name and its parsed suffix |
| ProfesoresClases.CatalogClases | santillana_format/profesores_clases.py:599-622 | the classes come from the entries, each with its parsed suffix |
| ProfesoresClases.CatalogIgnored | santillana_format/profesores_clases.py:599-622 | ignored entries plus classes equal the entries with an id and a name: entries without them are skipped uncounted |
| ProfesoresClases.ParseCatalog | santillana_format/profesores_clases.py:599-622 | the parse loop computes the catalog's classes and ignored count |
| ProfesoresClases.CatalogStep | santillana_format/profesores_clases.py:601-621 | one more entry adds its class, or one ignored entry when its suffix does not parse |
| ProfesoresClases.FilterMatches | santillana_format/profesores_clases.py:655-665 | exactly the matching classes, in catalog order |
| ProfesoresClases.MatchClases | santillana_format/profesores_clases.py:648-665 | an empty normalised course gives no class; otherwise exactly the classes whose name starts with the course, of a desired level and, when grade-specific, a desired grade, in catalog order |
| ProfesoresClases.MatchIgnoresSection | santillana_format/profesores_clases.py:655-664 | the section of a class never affects whether it matches |
| ClasesPlannerSpec.GrowsUpdate | santillana_format/profesores_clases.py:166 | replacing a class's set by a superset keeps every recorded (class, persona) pair |
| ClasesPlannerSpec.GrowsRefl | santillana_format/profesores_clases.py:132-134 | a map keeps its own pairs |
| ClasesPlannerSpec.IdsMeaning | santillana_format/profesores_clases.py:165-166 | a class id is among the matches' ids iff some match has it |
| ClasesPlannerSpec.IdsHas | santillana_format/profesores_clases.py:165-166 | every match's id is among the ids |
| ClasesPlannerSpec.AddMatchesMeaning | santillana_format/profesores_clases.py:165-166 | after recording a docente's matches, a pair is recorded iff it was before or it is this persona in a matched class |
| ClasesPlannerSpec.AddMatchesHolds | santillana_format/profesores_clases.py:165-166 | after recording, the persona is desired in each matched class |
| ClasesPlannerSpec.AddMatchesNonEmpty | santillana_format/profesores_clases.py:166 | no class of the map ever holds an empty set |
| ClasesPlannerSpec.DesiredByClassMeaning | santillana_format/profesores_clases.py:138-166 | `desired_by_class` holds (class, persona) exactly when some docente of that persona with levels and a course matched a catalog class with that id |
| ClasesPlannerSpec.DesiredClassesMatched | santillana_format/profesores_clases.py:138-166 | every class of `desired_by_class` was matched in the run |
| ClasesPlannerSpec.DesiredByClassNonEmpty | santillana_format/profesores_clases.py:166 | every class of `desired_by_class` desires some persona |
| ClasesPlannerSpec.AddedOkGrows | santillana_format/profesores_clases.py:199-251 | the maps only grow, so pairs already counted stay recorded and desired |
| ClasesPlannerSpec.AddedOkAppend | santillana_format/profesores_clases.py:199-251 | a pair newly recorded extends the list of new assignments without repeating one: a persona is added to a class at most once per run |
| ClasesPlannerSpec.FetchOkStep | santillana_format/profesores_clases.py:175-197 | listing a class that is not cached keeps "each class listed successfully at most once, every success cached", whatever the answer; a failure is not cached |
| ClasesPlannerSpec.FetchOkGrows | santillana_format/profesores_clases.py:197 | growing the cache keeps every successful listing cached |
| ClasesPlannerSpec.ListedPlan | santillana_format/profesores_clases.py:209-211 | planning a persona outside the listed staff records the pair as added and keeps the staff as first listed |
| ClasesPlannerSpec.ListedAssign | santillana_format/profesores_clases.py:250-251 | an assignment adds the persona to the cached staff and records the pair as added: what the cache holds beyond the first listing was added in the run |
| ClasesPlannerSpec.ListedTargets | santillana_format/profesores_clases.py:259-284 | the staff the removal pass reads from the cache and the class's first listing differ only by desired personas, so both give the same personas to remove |
| ClasesPlannerSpec.MatchInvFetch | santillana_format/profesores_clases.py:175-197 | a listing of an uncached class keeps the match-phase invariant: on success the answer is cached and recorded as the class's first listing, on failure nothing is cached |
| ClasesPlannerSpec.MatchInvDesire | santillana_format/profesores_clases.py:165-166 | recording a desired pair keeps the match-phase invariant |
| ClasesPlannerSpec.MatchInvOpen | santillana_format/profesores_clases.py:199 | `setdefault` of a planned set keeps the match-phase invariant |
| ClasesPlannerSpec.MatchInvPlan | santillana_format/profesores_clases.py:209-211 | planning a desired persona that is neither in the staff nor planned adds the pair once and keeps the invariant |
| ClasesPlannerSpec.MatchInvAssign | santillana_format/profesores_clases.py:250-251 | a successful assignment of a desired persona outside the staff adds the pair once and keeps the invariant |
| ClasesPlannerSpec.ExtendsTrans | santillana_format/profesores_clases.py:130-319 | the record (new pairs, first listings, errors) only grows, step after step |
| ClasesPlannerSpec.HandledStable | santillana_format/profesores_clases.py:130-319 | a pair that was added, found in its class's first listing, or named by an error stays so as the record grows |
| ClasesPlannerSpec.AllHandledStable | santillana_format/profesores_clases.py:255-319 | the removal pass undoes none of the match phase: every desired pair stays dealt with |
| ClasesPlannerSpec.HandledButStart | santillana_format/profesores_clases.py:165-166 | after a docente's matches are recorded as desired, the only pairs not yet dealt with are that persona's in the matched classes |
| ClasesPlannerSpec.HandledButStep | santillana_format/profesores_clases.py:168-253 | handling the next match of the docente leaves only the remaining matches to deal with |
| ClasesPlannerSpec.ClassPairs | santillana_format/profesores_clases.py:288 | one (class, persona) pair per persona to remove, in the same order |
| ClasesPlannerSpec.DeletedAccount | santillana_format/profesores_clases.py:288-319 | each persona to remove ends as exactly one removal or one `eliminar_profesor` error: the counts add up to the list's length, and each removal and error names a persona of the list in that class |
| ClasesPlannerSpec.DeletedSnoc | santillana_format/profesores_clases.py:288-319 | one more persona to remove adds its pair, and either its removal or its error as the deletion call answers |
| ClasesPlannerSpec.RemovalTraceStep | santillana_format/profesores_clases.py:288-319 | one more persona removed as the dry-run flag and the numbered deletion call say extends what the removals of a class leave behind |
| ClasesPlannerSpec.RemovalsStep | santillana_format/profesores_clases.py:258-319 | visiting one more desired class keeps "the removals are, once each, the first-listed staff of the visited classes that the class does not desire" |
| ClasesPlannerSpec.Unmatched | santillana_format/profesores_clases.py:152-163 | `docentes_sin_match` never exceeds the number of docentes |
| ClasesPlannerSpec.HandledMatched | santillana_format/profesores_clases.py:138-253 | once every desired pair is dealt with, every (class, persona) pair some docente matched was added, already in the class's listing, or named by an error |
| ClasesPlannerSpec.AddedMatched | santillana_format/profesores_clases.py:199-253 | every pair added was matched by some docente, in a class whose staff was listed, and the persona was not in that listing |
| ClasesPlannerSpec.RemovalsMatched | santillana_format/profesores_clases.py:255-319 | the removals over all desired classes are, once each, the listed staff members of a class matched in the run that no docente matched there |
| ClasesPlannerSpec.RunContained | santillana_format/profesores_clases.py:209-319 | a dry run calls no write; every assignment is a matched (class, persona) pair; deletions happen only when removal is asked for, in a class matched in the run, of a persona not matched there |
| ClasesPlanner.Planner.constructor | santillana_format/profesores_clases.py:130-134 | empty caches, maps, counters and error list |
| ClasesPlanner.Planner.StaffOf | santillana_format/profesores_clases.py:175-197 | the staff is the current listing: a cached class's staff without a call; otherwise the listing call numbered by the calls so far, cached and recorded as first listing only on success |
| ClasesPlanner.Planner.Desire | santillana_format/profesores_clases.py:166 | the persona is added to the class's desired set |
| ClasesPlanner.Planner.HandleMatch | santillana_format/profesores_clases.py:168-253 | one match ends as the outcome `MatchOutcome` gives for the class's listing, its planned set, the dry-run flag and the assignment answer: a failed listing is a `listar_staff` error naming the persona, a persona in the staff or planned is omitted, otherwise it is added (planned, or assigned when the call succeeds) or an `asignar_profesor` error; the assignment call is made exactly when `CallsAssign`; the pair is dealt with afterwards |
| ClasesPlanner.Planner.HandleListed | santillana_format/profesores_clases.py:199-253 | the same decision for a class whose staff is cached |
| ClasesPlanner.Planner.MatchError | santillana_format/profesores_clases.py:184-248 | a failed match appends its error with persona and class and counts it |
| ClasesPlanner.Planner.Omit | santillana_format/profesores_clases.py:200-207 | a persona already in staff or planned counts as omitted |
| ClasesPlanner.Planner.OpenPlanned | santillana_format/profesores_clases.py:199 | `planned_by_class.setdefault(c, set())` |
| ClasesPlanner.Planner.Plan | santillana_format/profesores_clases.py:209-226 | dry run: the persona joins the class's planned set and counts as new |
| ClasesPlanner.Planner.Assign | santillana_format/profesores_clases.py:228-253 | apply: one assignment call; when it answers success the persona joins the cached staff and counts as new, otherwise an `asignar_profesor` error is recorded and nothing else changes |
| ClasesPlanner.Planner.Assigned | santillana_format/profesores_clases.py:250-251 | a successful assignment adds the persona to the cached staff and counts as new |
| ClasesPlanner.Planner.HandleDocente | santillana_format/profesores_clases.py:138-253 | a docente counts as processed; without levels or matches it counts as unmatched; otherwise its matches are counted as found and recorded as desired, and every desired pair stays dealt with |
| ClasesPlanner.Planner.Tally | santillana_format/profesores_clases.py:139-163 | the docente proceeds iff it has levels and matches; the counters move as the source's do |
| ClasesPlanner.Planner.DesireAll | santillana_format/profesores_clases.py:165-166 | every matched class records the persona as desired |
| ClasesPlanner.Planner.HandleAll | santillana_format/profesores_clases.py:168-253 | every match of the docente is handled, so every desired pair is dealt with |
| ClasesPlanner.Planner.Run | santillana_format/profesores_clases.py:138-324 | every docente is processed; `docentes_sin_match`, `clases_encontradas` and the desired map are those the docentes and the catalog determine; every matched pair was added, already in the class's listing, or named by an error; every added pair was matched and absent from its class's listing; with removal asked for, the removals are, once each, the listed staff of matched classes that no docente matched there; nothing is deleted otherwise; the warning flag is set iff there is no docente |
| ClasesPlanner.Planner.RemovalPass | santillana_format/profesores_clases.py:255-319 | the removal pass visits the desired classes and its removals are, once each, the first-listed staff members of those classes that the class does not desire |
| ClasesPlanner.Planner.RemoveFromClass | santillana_format/profesores_clases.py:258-319 | one desired class: the staff is the current listing; a failed listing is a `listar_staff` error without persona and removes nothing; otherwise the personas to remove are the undesired staff members, each once, in ascending id order, and each ends as a removal or an error as `RemovalTrace` says |
| ClasesPlanner.Planner.RemoveAfterListing | santillana_format/profesores_clases.py:268-319 | after the listing of one class: a failed listing is one `listar_staff` error without persona and removes nothing; a listed class loses exactly its undesired members, each once, in ascending id order, as `RemovalTrace` says |
| ClasesPlanner.Planner.RemoveListed | santillana_format/profesores_clases.py:284-319 | for a listed class: the sorted undesired staff members, which are also the undesired members of its first listing, each removed in turn |
| ClasesPlanner.Planner.RemoveAll | santillana_format/profesores_clases.py:288-319 | removing a list leaves the deletion calls, removals and errors `RemovalTrace` gives; each persona adds exactly one removal or one error |
| ClasesPlanner.Planner.ListingError | santillana_format/profesores_clases.py:268-281 | a failed listing in the removal pass is logged without a persona and removes nothing |
| ClasesPlanner.Planner.RemoveOne | santillana_format/profesores_clases.py:289-319 | in a dry run the persona is removed without a call; otherwise one deletion call, then a removal on success or an `eliminar_profesor` error on failure |
| ClasesPlanner.Planner.DeleteCalled | santillana_format/profesores_clases.py:297-304 | the delete call is recorded, counters unchanged |
| ClasesPlanner.Planner.Eliminated | santillana_format/profesores_clases.py:318-319 | one removal counted |
| ClasesPlanner.Planner.DeleteError | santillana_format/profesores_clases.py:305-317 | a failed deletion is logged with its persona and counted as an API error |
| SyncRecords.CellText | santillana_format/profesores_sync.py:698 | a text cell reads as its text |
| SyncRecords.ValueIsTrue | santillana_format/profesores_sync.py:549-556 | true iff the text is not blank and its stripped, lower-cased form is none of `0`, `no`, `n`, `false` |
| SyncRecords.MergedFlagsReadBack | santillana_format/profesores_sync.py:700-709 | the merged flag texts `SI` and `""` read back as true and false |
| SyncRecords.ValueIsTrueOfStripped | santillana_format/profesores_sync.py:550 | stripping a value first does not change whether it is true |
| SyncRecords.ValueIsTrueOfPadded | santillana_format/profesores_sync.py:549-556 | a padded word is true iff its lower-cased form is not a false word |
| SyncRecords.NormalizeTextShape | santillana_format/profesores_sync.py:750-759 | empty iff the stripped text is blank or a null word in any case; otherwise (accents folded) no lower-case letter and every whitespace is a single space |
| SyncRecords.NormalizeTextFolds | santillana_format/profesores_sync.py:756-757 | accents never matter: `José Pérez` and `Jose Perez` normalise alike, so they give one `nombre` key and no merge conflict |
| SyncRecords.NormalizeEmail | santillana_format/profesores_sync.py:762-768 | a non-empty result is the stripped, lower-cased text and not a null word; an empty one comes from blank or null text |
| SyncRecords.NormalizeDigits | santillana_format/profesores_sync.py:771-786 | the result is digits only |
| SyncRecords.NormalizeTextOfWord | santillana_format/profesores_sync.py:750-759 | a word without whitespace that is no null word normalises to its accent-folded upper-case form |
| SyncRecords.NormalizeDigitsOfNumber | santillana_format/profesores_sync.py:771-786 | a padded number normalises to its decimal digits |
| SyncRecords.NormalizeDigitsOfInt | santillana_format/profesores_sync.py:771-777 | an integer's text normalises to the digits of its absolute value |
| SyncRecords.NormalizeDigitsOfNegative | santillana_format/profesores_sync.py:771-777 | the minus sign of a negative id is dropped |
| SyncRecords.KeysUnion | santillana_format/profesores_sync.py:734-736 | the union of the typed key sets |
| SyncRecords.InKeyPriority | santillana_format/profesores_sync.py:41 | every key type is in the priority order |
| SyncRecords.KeysOfNormalMeaning | santillana_format/profesores_sync.py:713-737 | a key type is present iff its normalised field yields a key, with exactly that key; `keys_union` is exactly the union of the typed keys |
| SyncRecords.KeysByTypeMeaning | santillana_format/profesores_sync.py:713-737 | the same for a raw record; the `nombre` key exists iff name and both surnames normalise to non-empty text; every key names its own type |
| SyncRecords.KeyNamesItsType | santillana_format/profesores_sync.py:717-732 | the prefix of a key tells its type |
| SyncRecords.SharedKeySameType | santillana_format/profesores_sync.py:717-732 | two records can share a key only through the same key type |
| SyncRecords.DesiredLevels | santillana_format/profesores_sync.py:290-296 | the desired level ids are among 38, 39, 40 |
| SyncRecords.DesiredLevelsMeaning | santillana_format/profesores_sync.py:290-296 | level id 38/39/40 is desired iff the Inicial/Primaria/Secundaria cell is true |
| SyncRecords.EstadoNeverRead | santillana_format/profesores_sync.py:290-296 | the `Estado` column changes neither the desired levels nor the identity of a record |
| SyncRecords.Columns | santillana_format/profesores_sync.py:580-584 | the merged columns hold the three level columns |
| SyncRecords.ColumnsDistinct | santillana_format/profesores_sync.py:580-584 | the merged columns are distinct |
| SyncRecords.Column | santillana_format/profesores_sync.py:698 | one stripped cell per record, in order |
| SyncRecords.FirstNonEmptyMeaning | santillana_format/profesores_sync.py:703-704 | empty iff every value is empty; otherwise the first non-empty value |
| SyncRecords.AnyOfMeaning | santillana_format/profesores_sync.py:700-701 | a level flag is set iff some record's value is true |
| SyncRecords.ConflictingMeaning | santillana_format/profesores_sync.py:703-707 | a column conflicts iff some later non-empty value differs, after normalisation, from the first non-empty one |
| SyncRecords.ConflictingSound | santillana_format/profesores_sync.py:703-707 | a conflict comes from two differing values |
| SyncRecords.ConflictingComplete | santillana_format/profesores_sync.py:703-707 | a value differing from the kept first value is a conflict |
| SyncRecords.DesiredOfRowsMeaning | santillana_format/profesores_sync.py:290-296 | a level is desired by some record of a group iff its column's merged flag is set |
| SyncRecords.DesiredOfRowsRange | santillana_format/profesores_sync.py:290-296 | desired level ids are 38, 39 or 40 |
| SyncRecords.MergedDesiredLevels | santillana_format/profesores_sync.py:686-710 | the merged record desires exactly the union of the levels its records desire |
| SyncRecords.SpecStateStep | santillana_format/profesores_sync.py:696-707 | one more record moves each column's state by one merge step |
| SyncRecords.MergeRecords | santillana_format/profesores_sync.py:686-710 | the loop computes the merged record (first non-empty value, `SI`/`""` for OR-ed level flags) and exactly the conflicting columns |
| SyncRecords.MergeRows | santillana_format/profesores_sync.py:696-707 | the loop over records reaches the merge state of all records |
| SyncRecords.MergeStateInit | santillana_format/profesores_sync.py:692-693 | empty values, false flags and no conflict are the state before any record |
| SyncRecords.MergeStateFinal | santillana_format/profesores_sync.py:708-710 | the final state, flags written as `SI`/`""`, is the merged record and its conflicts |
| SyncRecords.FlagsToValues | santillana_format/profesores_sync.py:708-709 | each level flag is written as `SI` or `""`, other columns unchanged |
| SyncRecords.MergeRow | santillana_format/profesores_sync.py:697-707 | one record advances the merge state |
| SyncRecords.MergeCells | santillana_format/profesores_sync.py:697-707 | every column moves by one merge step on the record's cell |
| SyncRecords.MergeCell | santillana_format/profesores_sync.py:698-707 | one column moves by one merge step; the others are unchanged |
| Forest.Relink | santillana_format/profesores_sync.py:627-633 | linking one root under another moves exactly that root's members |
| Forest.SingletonsOk | santillana_format/profesores_sync.py:609-610 | every record its own parent with rank 0 is a valid forest of singletons |
| Forest.HalveOk | santillana_format/profesores_sync.py:617-619 | path halving keeps the forest valid and every record's root, and climbs in rank |
| Forest.LinkOk | santillana_format/profesores_sync.py:627-630 | linking the lower-ranked root under the other keeps the forest valid |
| Forest.LinkBumpOk | santillana_format/profesores_sync.py:631-633 | linking equal-ranked roots and bumping the new root's rank keeps the forest valid |
| UnionFind.UnionFind.constructor | santillana_format/profesores_sync.py:609-610 | every record starts as its own root |
| UnionFind.UnionFind.Find | santillana_format/profesores_sync.py:616-620 | `find` returns the record's root, a self-parented node, and changes no record's root |
| UnionFind.UnionFind.Halve | santillana_format/profesores_sync.py:618-619 | one halving step keeps every root and reaches a node of higher rank in the same tree |
| UnionFind.UnionFind.Link | santillana_format/profesores_sync.py:627-630 | the child's tree joins the other root's tree |
| UnionFind.UnionFind.LinkBump | santillana_format/profesores_sync.py:631-633 | the child's tree joins the other root's tree, rank bumped |
| UnionFind.UnionFind.Union | santillana_format/profesores_sync.py:622-633 | afterwards both records share a root, which is one of their two old roots; exactly the members of their two trees move to it, and no other record's root changes |
| SyncGroupsSpec.KeylessCount | santillana_format/profesores_sync.py:639-641 | never more keyless records than records |
| SyncGroupsSpec.MembersMeaning | santillana_format/profesores_sync.py:648-653 | a group lists exactly the keyed records with its root, in ascending order |
| SyncGroupsSpec.MembersStep | santillana_format/profesores_sync.py:649-653 | one more record joins only its own root's group |
| SyncGroupsSpec.SumLensGrow | santillana_format/profesores_sync.py:653 | appending a record to a listed group adds one to the total size |
| SyncGroupsSpec.SumLensOther | santillana_format/profesores_sync.py:658-660 | a group not in the order does not count |
| SyncGroupsSpec.Pick | santillana_format/profesores_sync.py:663 | one record per index |
| SyncGroupsSpec.JoinTypedUnion | santillana_format/profesores_sync.py:670-673 | the union of merged typed key sets is the union of the parts' keys |
| SyncGroupsSpec.GroupKeysMeaning | santillana_format/profesores_sync.py:668-673 | a group's keys are exactly the keys of its records, and agree with its typed keys |
| SyncGroupsSpec.CollectGrow | santillana_format/profesores_sync.py:652-653 | a keyed record whose root is known is appended to that root's group |
| SyncGroupsSpec.CollectNew | santillana_format/profesores_sync.py:652-653 | a keyed record with a new root opens a new group at the end of the order |
| SyncGroupsSpec.CollectStep | santillana_format/profesores_sync.py:652-653 | one keyed record keeps the collected groups correct |
| SyncGroupsSpec.CollectCollected | santillana_format/profesores_sync.py:648-653 | the collection pass lists every keyed record under its root, roots in first-seen order |
| SyncGroupsSpec.CollectedInRange | santillana_format/profesores_sync.py:648-653 | collected indices are record indices |
| SyncGroupsSpec.SkipStep | santillana_format/profesores_sync.py:650-651 | a keyless record is skipped |
| SyncGroupsSpec.Shift | santillana_format/profesores_sync.py:679 | group rows are the 1-based record numbers |
| SyncGroupsSpec.RowsAt | santillana_format/profesores_sync.py:663 | one record per row number |
| SyncGroupsSpec.KeySets | santillana_format/profesores_sync.py:635-638 | one key set per record |
| SyncGroupsSpec.KeySetsAt | santillana_format/profesores_sync.py:636-638 | record `i`'s key set is the union of its identity keys |
| SyncGroupsSpec.TypedKeySets | santillana_format/profesores_sync.py:635-637 | one typed key map per record |
| SyncGroupsSpec.TypedKeySetsAt | santillana_format/profesores_sync.py:636-637 | record `i`'s typed keys are its identity's |
| SyncGroupsSpec.GroupForMerged | santillana_format/profesores_sync.py:663-681 | a built group carries the merge of its records and their conflicts |
| SyncGroupsSpec.GroupsPartition | santillana_format/profesores_sync.py:648-681 | each group holds exactly the keyed records of its root, non-empty and ascending, and every keyed record is in some group |
| SyncGroupsSpec.GroupRows | santillana_format/profesores_sync.py:648-679 | a group's rows are exactly its root's keyed records, ascending |
| SyncGroupsSpec.SumLensPrefix | santillana_format/profesores_sync.py:658-660 | the total size grows by each group's size |
| SyncGroupsSpec.RowsAtShift | santillana_format/profesores_sync.py:663-665 | the records of a group's rows are the records at its indices |
| SyncGroupsSpec.LinkedRefl | santillana_format/profesores_sync.py:609 | a record alone is trivially linked to itself, as every record starts in its own tree |
| SyncGroupsSpec.LinkedShare | santillana_format/profesores_sync.py:642-644 | two records sharing a key are linked |
| SyncGroupsSpec.LinkedTrans | santillana_format/profesores_sync.py:642-644 | chains of shared keys join end to end |
| SyncGroupsSpec.UnionLinked | santillana_format/profesores_sync.py:642-644 | `union` of two records sharing a key keeps every two records with one root linked by a chain of shared keys |
| SyncGroupsSpec.GroupsLinked | santillana_format/profesores_sync.py:648-653 | any two records of one group are linked by a chain of shared keys |
| SyncGroupsSpec.GroupsFacts | santillana_format/profesores_sync.py:603-683 | groups are non-empty, ascending, cover every keyed record, are pairwise disjoint, and two records sharing a key are in the same group |
| SyncGroupsSpec.GroupsDisjoint | santillana_format/profesores_sync.py:648-681 | no record is in two groups |
| SyncGroupsSpec.SharedKeySameGroup | santillana_format/profesores_sync.py:642-646 | records sharing a key end in the same group |
| SyncGroupsSpec.BuiltGroups | santillana_format/profesores_sync.py:658-681 | one group per root |
| SyncGroupsSpec.BuiltGroupsPrefix | santillana_format/profesores_sync.py:658-681 | one more root appends its group |
| SyncGroupsSpec.BuiltGroupsAt | santillana_format/profesores_sync.py:658-681 | group `g` is built from the `g`-th root's records |
| SyncGroupsSpec.GroupsMerged | santillana_format/profesores_sync.py:603-683 | groups plus duplicates plus keyless records equal the records, and every group carries its records' merge |
| SyncGroups.RegisterKeys | santillana_format/profesores_sync.py:635-646 | keyless records are counted in `missing`; any two records sharing a key end with the same root, and two records end with the same root only when a chain of records, each sharing a key with the next, joins them |
| SyncGroups.CollectGroups | santillana_format/profesores_sync.py:648-653 | the collection loop computes the groups' order and members, roots unchanged |
| SyncGroups.BuildGroup | santillana_format/profesores_sync.py:663-681 | the group built is the specified merge of its records with their keys and rows |
| SyncGroups.GroupRecords | santillana_format/profesores_sync.py:603-683 | `missing` counts keyless records; groups + duplicates + missing = records; groups partition the keyed records; sharing a key puts records in one group, and two records are in one group only when a chain of shared keys joins them (the groups are the connected components); each group is its records' merge |
| SyncGroups.Forest | santillana_format/profesores_sync.py:608-653 | the union–find passes leave records sharing a key under one root, and records under one root joined by a chain of shared keys, and collect the groups |
| SyncGroups.BuildGroups | santillana_format/profesores_sync.py:655-681 | the group loop builds every group, and `duplicates_count` is the total size minus the number of groups |
| Profesores.PyInt | santillana_format/profesores.py:449-450 | `int(x)` of a number is that number; of None or NaN it fails |
| Profesores.ParseActivoRejectsAccentedSi | santillana_format/profesores.py:307-314 | the parser as written rejects `sí`, the corrected one accepts it |
| Profesores.ParseActivoOfPaddedWord | santillana_format/profesores.py:312-313 | a true word with any whitespace padding parses as true |
| Profesores.ParseActivoDiffersOnlyOnAccent | santillana_format/profesores.py:307-314 | the corrected parser differs from the source's only on `sí` (and its mojibake spelling) |
| Profesores.NivelesOfMeaning | santillana_format/profesores.py:211-223 | a level id is collected iff some object entry that is kept (not `activo is False` when only active ones are asked for) has that id |
| Profesores.OnlyActivosDropsFalse | santillana_format/profesores.py:214 | a level lost by asking for active entries only was carried only by entries whose `activo` is exactly False |
| Profesores.ExtractedNivelesMeaning | santillana_format/profesores.py:209-241 | the level ids of `niveles`; `personaRoles` is consulted only when `niveles` yielded nothing |
| Profesores.ExtractNiveles | santillana_format/profesores.py:209-241 | the two loops compute the extracted level set |
| Profesores.ActivosOfMeaning | santillana_format/profesores.py:244-285 | a level is in the map iff some entry with a level id and a non-None `activo` names it; its flag is the OR of those entries' flags |
| Profesores.ExtractNivelesActivosMap | santillana_format/profesores.py:244-285 | the two loops compute the activation map |
| Profesores.DeriveEstado | santillana_format/profesores.py:288-293 | `""` iff the map is empty, `Activo` iff some level is active, else `Inactivo` |
| Profesores.MergeNeverDowngrades | santillana_format/profesores.py:529-533 | merging the detail keeps every level and every true flag, so an active or known `Estado` stays so |
| Profesores.MergeDetailActivos | santillana_format/profesores.py:529-533 | the loop over the detail map computes the merged map (True overwrites, False only when absent) |
| Profesores.MergedActivosPointwise | santillana_format/profesores.py:529-533 | the merged map holds the union of levels, each true iff true in the detail or already true |
| Profesores.PickValue | santillana_format/profesores.py:296-304 | the detail's value when present and not None/`""`, else the persona's, else `""` |
| Profesores.ProfesoresFilename | santillana_format/profesores.py:70-73 | `profesores.xlsx` iff the school id is 0; otherwise `profesores_<id>.xlsx` |
| Profesores.ProfesoresFilenameRoundTrip | santillana_format/profesores.py:70-73 | the school id is read back from the file name |
| Profesores.MergedPersonaKeeps | santillana_format/profesores.py:483-491 | existing non-empty persona fields are kept; a field changes only from empty to a non-empty incoming value |
| Profesores.SeenRoleSkipped | santillana_format/profesores.py:428-430 | an item whose `personaRolId` was seen is skipped |
| Profesores.ItemStepEffect | santillana_format/profesores.py:419-491 | one item keeps the order and entry invariants, only grows personas, errors and level sets, logs `listado` errors only, and for a new role with a valid persona id adds the level with its parsed flag and touches no other persona |
| Profesores.FillPersona | santillana_format/profesores.py:483-491 | the fill loop computes the merged persona |
| Profesores.MergedPersonaPointwise | santillana_format/profesores.py:483-491 | the pointwise description is the merged persona |
| Profesores.HandleItem | santillana_format/profesores.py:419-491 | one item of a listing is handled as specified |
| Profesores.ItemsStepOk | santillana_format/profesores.py:419-491 | a listing's items keep the invariants and log only `listado` errors |
| Profesores.ListedOk | santillana_format/profesores.py:397-494 | after the listings each persona is recorded once, with levels among those requested, no detail and no `Estado`; all errors so far are `listado` |
| Profesores.ItemsKeepsUndetailed | santillana_format/profesores.py:464-477 | listing items never set a detail or an `Estado` |
| Profesores.ListAll | santillana_format/profesores.py:397-494 | the listing loop computes the specified state |
| Profesores.Detailed | santillana_format/profesores.py:496-534 | the detail pass changes neither the personas nor their order |
| Profesores.GrownTrans | santillana_format/profesores.py:496-534 | the detail pass's growth is transitive over personas |
| Profesores.DetailStepOk | santillana_format/profesores.py:503-534 | one detail keeps levels, never downgrades a flag, logs only `detalle` errors and sets `Estado` from the flags |
| Profesores.DetailedOk | santillana_format/profesores.py:496-534 | the whole detail pass keeps those facts and logs at most one error per persona |
| Profesores.DetailAll | santillana_format/profesores.py:496-534 | the detail loop computes the specified state |
| Profesores.CountTipo | santillana_format/profesores.py:561-563 | a count of errors never exceeds the errors |
| Profesores.CountTipoSplit | santillana_format/profesores.py:559-564 | `listado` plus `detalle` errors are all the errors |
| Profesores.CountTipoOfParts | santillana_format/profesores.py:561-563 | a prefix of one kind followed by none of it counts the prefix |
| Profesores.OrderKeys | santillana_format/profesores.py:537 | every persona in the order is recorded |
| Profesores.RunOk | santillana_format/profesores.py:381-534 | every persona has a non-empty set of requested levels and a consistent `Estado`; the errors are the listing ones followed by at most one detail error per persona |
| Profesores.BuildResults | santillana_format/profesores.py:536-557 | one result per persona, in insertion order, each built from its entry |
| Profesores.ListarProfesoresData | santillana_format/profesores.py:372-565 | `niveles_total` is the number of contexts; `profesores_total` the number of distinct personas; `niveles_error` and `detalle_error` count the two kinds of error; each result's levels are requested ones and its `Estado` follows its flags; the errors are exactly those of the two passes (`Run`: listing errors first, then detail errors), and the results are, in first-listed order, one `ResultOf` per persona of the merged records |
| Profesores.ResultsFacts | santillana_format/profesores.py:536-557 | results carry distinct persona ids, their entries' levels and `Estado` |
| ProfesoresSyncSpec.Claimants | santillana_format/profesores_sync.py:233-245 | one claimant (keys and persona id) per listed persona |
| ProfesoresSyncSpec.ClaimantsAt | santillana_format/profesores_sync.py:234-245 | claimant `i` carries the identity keys and the id of persona `i` |
| ProfesoresSyncSpec.ApiIndexSnoc | santillana_format/profesores_sync.py:233-251 | one more persona claims its keys that are still free and warns on each key another persona holds |
| ProfesoresSyncSpec.ClaimStep | santillana_format/profesores_sync.py:246-251 | one key: kept when another persona holds it, otherwise set to this persona |
| ProfesoresSyncSpec.ClashStep | santillana_format/profesores_sync.py:247-250 | one key adds a warning exactly when another persona holds it |
| ProfesoresSyncSpec.IndexSnoc | santillana_format/profesores_sync.py:233-251 | the index and warnings after one more claimant |
| ProfesoresSyncSpec.IndexDomain | santillana_format/profesores_sync.py:231-252 | a key is indexed iff some persona has it |
| ProfesoresSyncSpec.IndexPrefix | santillana_format/profesores_sync.py:246-251 | a key indexed early never changes owner |
| ProfesoresSyncSpec.IndexClashesPrefix | santillana_format/profesores_sync.py:249 | warnings only accumulate |
| ProfesoresSyncSpec.ClaimTakes | santillana_format/profesores_sync.py:246-251 | a claimed key is indexed, keeping an earlier owner |
| ProfesoresSyncSpec.IndexFirst | santillana_format/profesores_sync.py:246-251 | on a collision the first persona listed with the key keeps it |
| ProfesoresSyncSpec.IndexClashesComplete | santillana_format/profesores_sync.py:247-250 | every persona losing a key to another one gets a warning for it |
| ProfesoresSyncSpec.IndexClashesSound | santillana_format/profesores_sync.py:247-250 | every warning names a persona that has the key and is not its owner |
| ProfesoresSyncSpec.FirstHit | santillana_format/profesores_sync.py:283-287 | the type found is one of the types tried, with a key in the index |
| ProfesoresSyncSpec.FirstHitAt | santillana_format/profesores_sync.py:283-286 | the first type with a hit, all earlier ones missing, is the one found |
| ProfesoresSyncSpec.FirstHitNone | santillana_format/profesores_sync.py:283-287 | nothing is found iff no type has a key in the index |
| ProfesoresSyncSpec.FirstHitEarliest | santillana_format/profesores_sync.py:283-286 | every type before the one found has no hit |
| ProfesoresSyncSpec.PriorityMatchMeaning | santillana_format/profesores_sync.py:280-287 | None iff no key of any type is indexed; otherwise the persona of an indexed key of the first type, in the order persona id, dni, login, email, nombre, that has one |
| ProfesoresSyncSpec.PriorityMatchUnique | santillana_format/profesores_sync.py:280-287 | when the winning type's keys all point to one persona, the match is determined |
| ProfesoresSyncSpec.MatchedUpToSnoc | santillana_format/profesores_sync.py:263-265 | one more group's priority match extends the matches |
| ProfesoresSyncSpec.MatchSnoc | santillana_format/profesores_sync.py:263-275 | one more group: unmatched is noted, a new persona gets the group's levels, a repeated one is warned and its levels are added |
| ProfesoresSyncSpec.DesiredByPersonaMeaning | santillana_format/profesores_sync.py:255-277 | a persona is desired iff some group matched it, and a level is desired for it iff one of its groups desires that level |
| ProfesoresSyncSpec.DesiredKeys | santillana_format/profesores_sync.py:269-275 | the personas with desired levels are exactly the matched ones |
| ProfesoresSyncSpec.MatchedMeaning | santillana_format/profesores_sync.py:263-275 | a persona is matched iff some group's match names it |
| ProfesoresSyncSpec.DesiredLevelsOf | santillana_format/profesores_sync.py:269-275 | a matched persona desires a level iff one of the groups matched to it asks for that level |
| ProfesoresSyncSpec.UnmatchedMeaning | santillana_format/profesores_sync.py:266-268 | a group is reported missing iff it matched nobody |
| ProfesoresSyncSpec.MatchCounts | santillana_format/profesores_sync.py:263-275 | missing groups, matched personas and repeat warnings add up to the groups |
| ProfesoresSyncSpec.DesiredDomain | santillana_format/profesores_sync.py:269-275 | the desired map covers exactly the matched personas |
| ProfesoresSyncSpec.ResolveNivelesActuales | santillana_format/profesores_sync.py:299-309 | the first non-empty of the detail levels, the active detail levels and the listed levels; empty iff all three are |
| ProfesoresSyncSpec.TargetsMeaning | santillana_format/profesores_sync.py:312-383 | a level is activated iff it is configured, desired and not flagged exactly True (an unknown flag counts as a mismatch); inactivated iff configured, not desired and flagged True |
| ProfesoresSyncSpec.TargetsDisjoint | santillana_format/profesores_sync.py:312-383 | no level is both activated and inactivated for one persona |
| ProfesoresSyncSpec.TargetsReachDesired | santillana_format/profesores_sync.py:312-383 | after the planned calls succeed, a configured level is active exactly when it is desired |
| ProfesoresSyncSpec.Failed | santillana_format/profesores_sync.py:496-506 | never more failures than errors |
| ProfesoresSyncSpec.FailedAssign | santillana_format/profesores_sync.py:451-461 | never more failures than errors |
| ProfesoresSyncSpec.FailedConcat | santillana_format/profesores_sync.py:496-506 | failures of each kind add up over appended error lists |
| ProfesoresSyncSpec.PutAllAccount | santillana_format/profesores_sync.py:465-507 | each attempted call counts once, as a success or as a failed `activarInactivar` of its own direction; other kinds of error are untouched |
| ProfesoresSyncSpec.PutAllCalls | santillana_format/profesores_sync.py:478-479 | a dry run counts every level and makes no call; otherwise one call per level |
| ProfesoresSyncSpec.PutAllErrors | santillana_format/profesores_sync.py:496-506 | errors are only appended, each naming the persona, a level of the batch and the direction |
| ProfesoresSyncSpec.PlanFollowsSheet | santillana_format/profesores_sync.py:122-148 | a matched persona is skipped iff both its desired and current levels are empty; a non-empty desired set is applied as is; an applied set is never empty |
| ProfesoresSyncSpec.PlanEffect | santillana_format/profesores_sync.py:122-189 | a persona absent from the sheet has every active level inactivated and nothing else; an applied plan's actions are disjoint and reach the desired levels |
| ProfesoresSyncSpec.ListingErrors | santillana_format/profesores_sync.py:118 | the listing errors open the error list and count as no activation or assignment failure |
| ProfesoresSyncSpec.PutStepAccount | santillana_format/profesores_sync.py:465-507 | a batch of level switches inside the loop fold: each level is counted in its direction's total or logged as a failure of that direction; one call per level outside a dry run, none in one |
| ProfesoresSyncSpec.AssignStepAccount | santillana_format/profesores_sync.py:419-462 | the level assignment inside the loop fold: counted or logged as failed when the set changes; one call outside a dry run, none in one or when unchanged |
| ProfesoresSyncSpec.ApplyPlanAccount | santillana_format/profesores_sync.py:149-189 | an applied plan's reassignment, activations and inactivations are each counted or logged as failed, and outside a dry run each is exactly one call |
| ProfesoresSyncSpec.PersonaStepAccount | santillana_format/profesores_sync.py:121-189 | one persona's round of the fold carries out its plan: every planned change counted or logged as failed, skipped only when the plan skips it, no call and no error in a dry run, otherwise exactly one call per planned change |
| ProfesoresSyncSpec.SyncRunAccount | santillana_format/profesores_sync.py:121-189 | the fold over all personas: each total plus its failures equals the planned total, the skipped list is the plan's, a dry run calls and logs nothing, otherwise the calls made are exactly the planned changes |
| ProfesoresSyncSpec.PutAllAlwaysOk | santillana_format/profesores_sync.py:494-506 | when every `activarInactivar` call succeeds a batch logs no error |
| ProfesoresSyncSpec.SyncRunAlwaysOk | santillana_format/profesores_sync.py:121-189 | when every call of either kind succeeds the fold logs no error |
| ProfesoresSyncSpec.SyncRunAllSucceed | santillana_format/profesores_sync.py:121-189 | when every call succeeds, no error is logged and `activar`, `inactivar` and `asignar_nivel` each equal the plans' number of changes |
| ProfesoresSyncSpec.OrdersForSnoc | santillana_format/profesores_sync.py:121-135 | one more persona, with an enumeration of its active levels when no group matched it, extends the orders of the loop |
| ProfesoresSyncSpec.DistinctSize | santillana_format/profesores_sync.py:399 | a duplicate-free listing of a set has the set's size |
| ProfesoresSync.BuildApiIndex | santillana_format/profesores_sync.py:228-252 | the loop computes the key index and the collision warnings of the listed personas |
| ProfesoresSync.ClaimKeys | santillana_format/profesores_sync.py:246-251 | the inner loop claims the persona's free keys and warns on the others |
| ProfesoresSync.MatchByPriority | santillana_format/profesores_sync.py:280-287 | the nested loop returns the priority match |
| ProfesoresSync.MatchExcelToApi | santillana_format/profesores_sync.py:255-277 | every group is priority-matched; the desired map, the missing groups and the repeat warnings are those the matches determine; a group is missing iff none of its keys, of any type, is in the index |
| ProfesoresSync.RecordMatch | santillana_format/profesores_sync.py:266-275 | one more group's match extends the desired map, the missing groups and the repeat warnings as the matches determine |
| ProfesoresSync.ActiveOrder | santillana_format/profesores_sync.py:399-401 | the levels flagged True, each once |
| ProfesoresSync.Sync.constructor | santillana_format/profesores_sync.py:109-120 | counters at zero, the error list opened with the listing errors, every configured level id or the three defaults |
| ProfesoresSync.Sync.PutActivar | santillana_format/profesores_sync.py:465-507 | one activation request: success without a call in a dry run, otherwise the oracle's answer, a failure logged |
| ProfesoresSync.Sync.PutEach | santillana_format/profesores_sync.py:327-346 | the requests for a batch of levels, with the success count and failure accounting |
| ProfesoresSync.Sync.ActivarDeseados | santillana_format/profesores_sync.py:312-346 | requests exactly the activation targets; successes plus new failures equal the targets |
| ProfesoresSync.Sync.InactivarNoDeseados | santillana_format/profesores_sync.py:349-383 | requests exactly the inactivation targets; successes plus new failures equal the targets |
| ProfesoresSync.Sync.InactivarTodos | santillana_format/profesores_sync.py:386-416 | requests inactivation of every level flagged True, each once |
| ProfesoresSync.Sync.AssignLevels | santillana_format/profesores_sync.py:419-462 | 0 without a call when desired equals current; 1 without a call in a dry run; otherwise one call, 1 on success and an `asignarNivel` error with 0 on failure |
| ProfesoresSync.Sync.SyncPersona | santillana_format/profesores_sync.py:122-189 | one persona: the new state is the fold's round for its plan (deactivate all, in an enumeration of its active levels; skip; or apply), so every call answer decides its own count or error; skipped only when it has no levels at all; its activations, inactivations and reassignment, successes plus failures, are those of its plan |
| ProfesoresSync.Sync.ApplyLevels | santillana_format/profesores_sync.py:149-189 | the new state is the fold's applied plan: the assignment, then the activation targets, then the inactivation targets, each call's answer deciding a count or an error; successes plus failures equal the plan's changes |
| ProfesoresSync.Sync.SwitchLevels | santillana_format/profesores_sync.py:159-189 | the new state is the activation batch followed by the inactivation batch of the fold, each success added to its total |
| ProfesoresSync.Sync.Run | santillana_format/profesores_sync.py:122-189 | the new state is the fold over all personas, for orders enumerating the active levels of every unmatched persona; so each counter plus its failures equals the planned total, a dry run logs and calls nothing, and otherwise the calls made are exactly the planned changes |
| ProfesoresSync.SyncProfesores | santillana_format/profesores_sync.py:76-201 | the summary counts the groups, personas, missing groups and listing errors; a group is missing iff no key of it is in the index built from the listing; the totals, skipped personas and errors are those of the fold started from the listing errors; `activar`, `inactivar` and `asignar_nivel` plus their failures equal the planned totals; a dry run reports only the listing errors; when every call succeeds the errors are only the listing errors and each total equals the planned one |
| ProfesoresPassword.LevelId | santillana_format/profesores_password.py:21 | `I`, `P` and `S` have the level ids 38, 39 and 40 |
| ProfesoresPassword.LevelIdInjective | santillana_format/profesores_password.py:21 | two level letters have the same level id iff they are the same letter |
| ProfesoresPassword.MarkedGradesAreLevels | santillana_format/profesores_password.py:226-229 | every set grade column contributes the level letter of its grade |
| ProfesoresPassword.MarkedLevelsAreLevels | santillana_format/profesores_password.py:232-234 | every set level column contributes a level letter |
| ProfesoresPassword.LettersAreLevels | santillana_format/profesores_password.py:220-235 | the letters of a row are level letters, so the id lookup of lines 122-124 never skips one |
| ProfesoresPassword.LevelColumnsIgnoredWhenGraded | santillana_format/profesores_password.py:230-231 | once some grade column is set, the level columns do not matter: rows that agree on the grade columns get the same letters |
| ProfesoresPassword.LettersFromLevels | santillana_format/profesores_password.py:230-235 | with no grade column set, the letters are those of the set level columns |
| ProfesoresPassword.ExtractLevelLetters | santillana_format/profesores_password.py:220-235 | the two loops return the grade letters when there are any, else the level letters |
| ProfesoresPassword.StepEntry | santillana_format/profesores_password.py:80-103 | one row: its persona gains an entry iff the row is accepted, joins the insertion order iff it had no entry, keeps the first credentials and gains the row's letters; a conflict is warned iff an accepted row differs from the stored credentials |
| ProfesoresPassword.ConsolidateKeys | santillana_format/profesores_password.py:91-97 | a persona has a record iff some row of it is accepted, and then it is in the insertion order |
| ProfesoresPassword.ConsolidateEntry | santillana_format/profesores_password.py:91-103 | a persona's record holds the login and password of its first accepted row and the union of the letters of all its accepted rows |
| ProfesoresPassword.ConsolidateConflict | santillana_format/profesores_password.py:98-102 | a conflict warning is issued for a persona iff a later accepted row of it carries a different login or password than its first |
| ProfesoresPassword.ConsolidateRowWarnings | santillana_format/profesores_password.py:79-89 | row `i + 2` is warned as incomplete iff its persona id (absent or 0), login or password is missing, and as level-less iff it is complete but has no letters |
| ProfesoresPassword.ConsolidateWellOrdered | santillana_format/profesores_password.py:77-103 | each recorded persona is listed once in the insertion order, and every record has a non-empty set of level letters |
| ProfesoresPassword.ConsolidateRows | santillana_format/profesores_password.py:77-103 | the row loop yields the records, their insertion order and the warnings of the consolidation |
| ProfesoresPassword.AddRow | santillana_format/profesores_password.py:79-103 | one row leaves the records as one consolidation step does: a warning for a row missing persona, login or password or without levels, a new entry appended to the order, or the levels merged with a conflict warning on different credentials |
| ProfesoresPassword.SortedLetters | santillana_format/profesores_password.py:121 | the letters of a level set in strictly increasing order, exactly the level letters of the set |
| ProfesoresPassword.SortedLettersCount | santillana_format/profesores_password.py:121 | a set of level letters is listed in full, each once |
| ProfesoresPassword.PersonaCalls | santillana_format/profesores_password.py:121-125 | one update call per sorted level letter of the persona |
| ProfesoresPassword.CallsCount | santillana_format/profesores_password.py:105 | the calls of the update pass number the `niveles_total` of the summary |
| ProfesoresPassword.CallsMeaning | santillana_format/profesores_password.py:118-125 | the pass calls (persona, level id) iff the persona is recorded and has that level |
| ProfesoresPassword.FailuresMeaning | santillana_format/profesores_password.py:144-154 | every error names a call whose oracle answer was a failure; no failure, no error; never more errors than calls |
| ProfesoresPassword.FailuresAppend | santillana_format/profesores_password.py:144-154 | the errors of two consecutive runs of calls are the errors of each, positions continuing |
| ProfesoresPassword.UpdatePersona | santillana_format/profesores_password.py:121-155 | one persona's calls: errors are its failing calls, successes plus errors equal its calls |
| ProfesoresPassword.ApplyUpdates | santillana_format/profesores_password.py:116-155 | the nested loop issues the calls of every recorded persona in insertion order; errors are the failing calls, successes plus errors equal the calls |
| ProfesoresPassword.ActualizarPasswords | santillana_format/profesores_password.py:59-157 | warnings are those of the consolidation; `docentes_total` is the number of personas and `niveles_total` the number of calls; a dry run calls nothing and reports no update and no error; otherwise errors are the failing calls and `actualizaciones + errores_api == niveles_total` |
| ProfesoresPassword.NormalizedHeaderCharacters | santillana_format/profesores_password.py:192-199 | a normalised header holds only lower-case letters, digits and spaces |
| ProfesoresPassword.AccentedAliasUnreachable | santillana_format/profesores_password.py:192-199 | no header normalises to `contraseña`, so that alias of line 47 never applies: the accent is folded away first |
| ProfesoresPassword.AccentedPasswordHeader | santillana_format/profesores_password.py:192-199 | a `Contraseña` header normalises to `contrasena`, whose alias names the password column |
| ProfesoresPassword.Canonical | santillana_format/profesores_password.py:182-185 | an alias maps to its canonical name; otherwise a grade key `[ips][0-9]` maps to its upper case; anything else to nothing |
| ProfesoresPassword.CanonicalOfUsualHeaders | santillana_format/profesores_password.py:42-56 | `persona id` is `Persona ID`, `p1` is `P1`, `s5` is `S5`, `p9` is `P9` (no such grade column exists), `x1` is nothing |
| ProfesoresPassword.AssignNames | santillana_format/profesores_password.py:180-188 | each renamed column carries its canonical name, no two columns get the same name, and every canonical name goes to the first column that has it |
| ProfesoresPassword.CanonicalizeColumns | santillana_format/profesores_password.py:177-189 | the renaming of the columns by their normalised headers, with the same three properties |
| Alumnos.GrupoLetters | santillana_format/alumnos.py:47-59 | the group ids are 661 to 671, and id `661 + k` is the `k`-th letter from `A` |
| Alumnos.GrupoTablesInverse | santillana_format/alumnos.py:60 | the letter-to-id table is the exact inverse of the id-to-letter table, over the letters `A` to `K` |
| Alumnos.DefaultsAreTables | santillana_format/alumnos.py:272-273 | the levels and groups listed when none is given are the values of `NIVEL_MAP` and the ids of `GRUPO_ID_TO_LETRA` |
| Alumnos.AlumnosFilenameRoundTrip | santillana_format/alumnos.py:97-104 | a non-empty list of school ids gives `alumnos_<ids>.xlsx`, whose middle part split on `_` reads back as the distinct ids in ascending order |
| Alumnos.RangeMeaning | santillana_format/alumnos.py:117 | `range(a, b + 1)` holds exactly the integers from `a` to `b` |
| Alumnos.TokenIdsMeaning | santillana_format/alumnos.py:114-120 | a token contributes exactly the ids it names: its value if it is a digit text, the ids `a..b` if it is `a-b` split at its first `-`, nothing otherwise |
| Alumnos.TokensIdsMeaning | santillana_format/alumnos.py:111-120 | an id comes out of the tokens exactly when one of the tokens contributes it |
| Alumnos.IdListMeaning | santillana_format/alumnos.py:107-121 | the parsed list is strictly increasing and holds exactly the ids some token of the text names |
| Alumnos.NamesOfNumber | santillana_format/alumnos.py:119-120 | a number's decimal text names that number alone |
| Alumnos.EmptyRange | santillana_format/alumnos.py:114-118 | a range token whose start exceeds its end contributes nothing |
| Alumnos.IdListOfRendering | santillana_format/alumnos.py:107-121 | increasing ids written as decimals separated by commas parse back to the same ids |
| Alumnos.ParseIdList | santillana_format/alumnos.py:107-121 | the token loop followed by de-duplication and sorting returns the parsed id list |
| Alumnos.ContextsCount | santillana_format/alumnos.py:124-147 | there are `schools × (grades of the listed levels × groups)` contexts |
| Alumnos.ContextsMeaning | santillana_format/alumnos.py:124-147 | a context is built iff its school, level and group are listed and its grade is one of that level's in the table, with the given company and cycle |
| Alumnos.UnknownNivelAddsNothing | santillana_format/alumnos.py:134 | a level missing from the grade table contributes no context |
| Alumnos.AppendNivel | santillana_format/alumnos.py:134-146 | the grade and group loops append the contexts of one level of one school, in order |
| Alumnos.AppendColegio | santillana_format/alumnos.py:133-146 | the level loop appends the contexts of one school, in order |
| Alumnos.BuildRequestContexts | santillana_format/alumnos.py:124-147 | the nested loops build the contexts school by school, level by level, grade by grade, group by group |
| Alumnos.FlattenFallsBack | santillana_format/alumnos.py:202-229 | the school id is the request's; the level, grade and group ids are the nested object's when it has one, the request's otherwise |
| Alumnos.CollectErrorCount | santillana_format/alumnos.py:287-305 | there are no more error rows than requests, and none iff no request failed |
| Alumnos.CollectErrorRows | santillana_format/alumnos.py:294-305 | every error row reports a failed request: its context's ids, its status and its non-empty error text |
| Alumnos.CollectAlumnoRows | santillana_format/alumnos.py:306-308 | every student row comes from a request that did not fail and carries that request's school |
| Alumnos.ListarAlumnos | santillana_format/alumnos.py:262-319 | the default levels and groups, the contexts, one request each; the student and error rows are those of the requests; the summary counts requests, errors and students, errors never exceeding requests |
| Letters.ScanTokens | santillana_format/cli.py:169-178 | the token loop keeps the scan the per-token rule defines, token after token |
| Letters.ScanLettersDistinct | santillana_format/cli.py:172-175 | the letters kept are upper-case and never repeated |
| Letters.ScanLettersNamed | santillana_format/cli.py:172-175 | a letter is kept iff some token, stripped and upper-cased, is that single letter |
| Letters.ScanLetters | santillana_format/cli.py:172-175 | the letters kept are distinct, upper-case, and exactly those some token names |
| Letters.ScanInvalid | santillana_format/cli.py:176-177 | a token is reported iff it is neither blank nor a single letter once upper-cased |
| Letters.ScanFirstSeen | santillana_format/cli.py:174-175 | the letters the first `k` tokens name come first, in the order they were first seen |
| Letters.ScanEmptyIff | santillana_format/richmond_groups.py:82-83 | nothing is kept and nothing reported iff every token is blank |
| Cli.ParseGrupoLetras | santillana_format/cli.py:164-180 | the scan of the tokens split on whitespace and commas; a reported token makes it fail |
| Cli.GrupoLetrasAccepts | santillana_format/cli.py:173-179 | the parse succeeds iff every token is a single letter |
| Cli.GrupoLetrasLetters | santillana_format/cli.py:164-180 | a successful parse returns distinct upper-case letters, exactly the ones the tokens name, and nothing (no default group) for blank input |
| Cli.GrupoLetrasRejects | santillana_format/cli.py:176-179 | a failed parse lists exactly the tokens that are not single letters |
| Cli.GestionEscolarUrlTarget | santillana_format/cli.py:183-191 | the class id takes precedence over the school id, which takes precedence over the bare collection; the id reads back from the URL |
| Cli.ColegioMapKeys | santillana_format/cli.py:267-276 | the schools collected are exactly those some listed class names with an id |
| Cli.ColegioMapLastWins | santillana_format/cli.py:269-276 | the last class naming a school decides the school's name |
| Cli.CollectColegios | santillana_format/cli.py:267-280 | one entry per collected school, ids strictly increasing, each with the collected name |
| Cli.SuffixIs | santillana_format/cli.py:295 | a name's suffix is a dot extension iff the name ends in it after at least one other character |
| Cli.LooksLikeFilePathIff | santillana_format/cli.py:292-295 | a value looks like a file iff its last path component, lower-cased, ends in `.xlsx`, `.csv` or `.txt` after another character |
| Cli.RewriteArgvDispatches | santillana_format/cli.py:526-534 | the rewrite only prepends a command, leaves known commands and flags alone, picks `depurar` iff the first two arguments look like files, and is idempotent |
| Cli.ResolvedUnpadded | santillana_format/cli.py:361-368 | an accepted token is non-empty and unpadded |
| Cli.ResolveTokenFallback | santillana_format/cli.py:361-363 | a blank `--token` defers to the environment variable |
| Cli.ResolveTokenBearer | santillana_format/cli.py:364-365 | a `Bearer ` prefix in any case is removed from the token |
| Cli.ResolveTokenPlain | santillana_format/cli.py:361-368 | a token without the prefix is kept as given |
| Cli.DeleteTally | santillana_format/cli.py:404-431 | each class is deleted or adds exactly one error, so `len(clases) - len(errors)` counts the deleted classes |
| Cli.DeleteAll | santillana_format/cli.py:404-421 | the deletion loop records a missing id or a failed deletion per class, in order |
| Cli.RunClasesApi | santillana_format/cli.py:360-437 | exit code 1 iff the token is missing, the listing fails or a deletion error occurs; with confirmation the errors, the deleted count and the schools are those of the listed classes; otherwise nothing is deleted |
| Text.FoldMarksOfAlnum | santillana_format/richmond_groups.py:42-43 | removing combining marks leaves ASCII letters and digits unchanged |
| RichmondGroups.SingleWordNormal | santillana_format/richmond_groups.py:39-45 | a single word of ASCII letters and digits normalises to its upper-case form |
| RichmondGroups.ParseLevelNames | santillana_format/richmond_groups.py:48-55 | `Primaria` reads back as Primaria and `Secundaria` as Secundaria (`PRIM` is looked for first, and `SECUNDARIA` does not hold it) |
| RichmondGroups.ParseGradeNone | santillana_format/richmond_groups.py:57-64 | no grade is read iff the text holds no digit |
| RichmondGroups.ParseGradeOf | santillana_format/richmond_groups.py:57-64 | the first run of digits is the grade: a number written after digit-free text and not followed by a digit reads back as itself |
| RichmondGroups.ParseSections | santillana_format/richmond_groups.py:67-84 | the section loop computes the scan of the split tokens, or reports `Secciones vacias.` when nothing is kept or reported |
| RichmondGroups.SectionsMeaning | santillana_format/richmond_groups.py:67-84 | with no token the only report is the empty-sections message; otherwise the letters are distinct, upper-case and exactly those named, and the reports are exactly the tokens that are not single letters |
| RichmondGroups.ContainsPhrasePrefix | santillana_format/richmond_groups.py:87-91 | a text holding a phrase holds every beginning of it that contains a space, when the rest of the phrase has none |
| RichmondGroups.PrimaryKinds | santillana_format/richmond_groups.py:94-117 | the primary rules give a primary grade level without a note, or no level with the undetermined-primary note |
| RichmondGroups.SecondaryKinds | santillana_format/richmond_groups.py:120-161 | the secondary rules give a secondary grade level with at most the Stopwatch assumption note, or no level with one of the three error notes |
| RichmondGroups.DetermineMatchesLevel | santillana_format/richmond_groups.py:164-172 | Primaria grades up to 2 need no grade level; otherwise the grade level found belongs to the row's level |
| RichmondGroups.DetermineUnsupported | santillana_format/richmond_groups.py:164-172 | any level other than Primaria and Secundaria is unsupported |
| RichmondGroups.FlyHigherPrecedence | santillana_format/richmond_groups.py:94-105 | every product holding `FLY HIGHER` also holds `FLY HIGH`, and, with no Go For It or Go Further, gets the upper level in both primary and secondary whatever the grade |
| RichmondGroups.GoForItRule | santillana_format/richmond_groups.py:120-127 | Go For It is lower primary in primary; in secondary it has a grade level iff the grade is at most 4 |
| RichmondGroups.StopwatchFullSecondary | santillana_format/richmond_groups.py:147-156 | a Stopwatch Full product no earlier rule decides has a grade level iff the grade is 5, and the range error otherwise |
| RichmondGroups.PlanSections | santillana_format/richmond_groups.py:424-440 | one planned group per section, in order, named `Inglés <grade><P|S><section>` with grade `grade<n>` |
| RichmondGroups.PlanGraded | santillana_format/richmond_groups.py:317-422 | the grade, range, section, product and grade-level checks, in the source's order, each rejecting the row with its problem |
| RichmondGroups.PlanRow | santillana_format/richmond_groups.py:292-440 | a row's entries: nothing for a blank row, the level check, then the checks of the graded row |
| RichmondGroups.PlanRows | santillana_format/richmond_groups.py:291-440 | the row loop appends each row's entries, numbering rows from 2 |
| RichmondGroups.DecidedShape | santillana_format/richmond_groups.py:405-440 | after the checks a row yields one error or one planned group per section, in the order of its sections |
| RichmondGroups.RowEntriesShape | santillana_format/richmond_groups.py:291-440 | a row yields nothing iff its four cells are blank; otherwise one error or one planned group per section letter, in order |
| RichmondGroups.RowEntriesValid | santillana_format/richmond_groups.py:317-440 | a planned group has a grade its level accepts, an upper-case section, its name and grade text, and a grade level where one is required |
| RichmondGroups.EntriesValid | santillana_format/richmond_groups.py:291-440 | every planned group of a sheet is valid in that sense |
| RichmondGroups.GroupNameParses | santillana_format/richmond_groups.py:425-426 | a group name carries its grade, level code and section in the class-suffix form the class matcher decodes back |
| RichmondGroups.CreateGroups | santillana_format/richmond_groups.py:471-565 | the creation loop's statuses are those of the specification, and the three counters count them and sum to the number of entries |
| RichmondGroups.CountsPartition | santillana_format/richmond_groups.py:567-572 | every status is counted exactly once |
| RichmondGroups.PlannedStatus | santillana_format/richmond_groups.py:480-500 | a planned group passes the loop's checks: skipped when its name is known, otherwise created iff the request succeeds |
| RichmondGroups.CreateStepKey | santillana_format/richmond_groups.py:498-539 | an entry is created only under a normalised name not yet known, which it then adds |
| RichmondGroups.ExistingGrows | santillana_format/richmond_groups.py:467-539 | the known names only grow during the run |
| RichmondGroups.StatusAt | santillana_format/richmond_groups.py:471-539 | each entry's status is decided with the names known after the entries before it |
| RichmondGroups.CreatedOnce | santillana_format/richmond_groups.py:498-539 | at most one group is created per normalised name in a run |
| RichmondGroups.NeverCreatesExisting | santillana_format/richmond_groups.py:467-500 | a name that existed before the run is never created |
| RichmondGroups.MissingColumns | santillana_format/richmond_groups.py:281 | the missing columns are exactly the required ones no normalised header matches |
| RichmondGroups.ProcessRsGroups | santillana_format/richmond_groups.py:268-573 | missing columns stop the run; no entries gives an all-zero summary without remote calls; a failed institution change or listing stops it; otherwise the statuses are those of the creation loop over the existing names, and the summary counts every entry and, each by itself, the created, skipped and failed statuses |
| RichmondGroups.LStripSlashSuffix | santillana_format/richmond_groups.py:180 | stripping leading slashes leaves a suffix preceded only by slashes |
| RichmondGroups.ResolveNextUrlMeaning | santillana_format/richmond_groups.py:175-180 | no link gives no next page, an absolute link is kept, a relative one is the base URL, one slash and the link without its leading slashes |
| RichmondGroups.BuildPayloadMeaning | santillana_format/richmond_groups.py:243-265 | the description repeats the name and the grade level is sent iff a non-empty one is given |
| Sheet.NormalizeKey | processor.py:28-34 | a normalised key holds no lower-case and no accented letter, and no padding at either end |
| Sheet.NormalizeKeyIdempotent | processor.py:28-34 | normalising a normalised key changes nothing |
| Sheet.NormalizeKeyOfPlain | processor.py:28-34 | unpadded text of digits, capitals and spaces is its own key |
| Sheet.FilterCode | processor.py:115-124 | the KeyError case happens exactly when the code column is absent; a kept table has the sheet's columns |
| Sheet.RowsWithCodeMeaning | processor.py:122-124 | the kept rows are a subsequence of the sheet, and a row is kept iff its stripped code cell equals the stripped code |
| Sheet.RowsWithCodeIdempotent | processor.py:122-124 | filtering the kept rows again by the same code keeps all of them |
| Sheet.FilterCodeIdempotent | processor.py:115-124 | `filtrar_codigo` applied to its own result with the same code gives the same table |
| Sheet.DetectHeaderRow | processor.py:37-53 | the scan over the first thirty rows returns the header row the specification function `HeaderRow` describes |
| Sheet.BestMeaning | processor.py:44-51 | the running best is the first position holding the highest count, and there is none while every count is zero |
| Sheet.HeaderRowMeaning | processor.py:37-53 | a detected row is among the first thirty, holds at least three header names and is the earliest holding the most; none is detected iff each of those rows holds fewer than three |
| Sheet.GradeLabel | processor.py:148-165 | a grade has a label iff it is 1 to 6 in primary or 1 to 5 in secondary |
| Sheet.GradeOfWellFormed | processor.py:163-165 | the number is zeroed beyond the level's last grade; a label is given iff the number is non-zero, and that number is the grade read |
| Sheet.StrictGradeRoundTrip | processor.py:136-165 | `<n> PRIMARIA` and `<n> SECUNDARIA` read back as grade n of that level |
| Sheet.StrictGradeOfWord | processor.py:136-165 | a number, a blank and a level word given in capitals read back as that grade of that level |
| Sheet.StrictMatchParts | processor.py:140 | a strict match reads digits, blanks, an optional `º`, blanks and the level word, and nothing else; the number is the value of the digits |
| Sheet.StrictWordOccurs | processor.py:140-145 | the level word the strict pattern reads occurs in the text |
| Sheet.GradesWellFormed | santillana_format/processor.py:280-319 | both grade parsers give a label iff a non-zero number, and never a number above 6 |
| Sheet.LenientNeedsLevelWord | santillana_format/processor.py:285-294 | without the word PRIMARIA or SECUNDARIA the lenient parser gives `("", 0)` |
| Sheet.LooseAgreesWithStrict | santillana_format/processor.py:284-298 | the fallback alone reads every text the strict pattern accepts the same way, so the strict branch never changes a result |
| RecordSort.LexLeTotal | processor.py:243-246 | any two sort keys of one width are ordered one way or the other |
| RecordSort.LexLeTrans | processor.py:243-246 | the column-by-column order is transitive |
| RecordSort.SortSorted | processor.py:243-246 | the sorted records are in key order |
| RecordSort.SortPermutes | processor.py:243-246 | the sort keeps every record, as many times as it occurs |
| CrmExport.MapearNivel | processor.py:127-133 | a level is read only from a cell whose normalised text is that level's name |
| CrmExport.MapearNivelRoundTrip | processor.py:127-133 | `EDUCACION PRIMARIA` and `EDUCACION SECUNDARIA` read back as their levels |
| CrmExport.MapearNivelNormalized | processor.py:127-133 | accents, letter case and padding do not change the level read |
| CrmExport.MapearMateria | processor.py:168-176 | the subject table of processor.py never yields Informática |
| CrmExport.MapearMateriaRoundTrip | processor.py:168-176 | `COMUNICACION` and `MATEMATICAS` read back as Comunicación and Matemática |
| CrmExport.MainMapearMateria | main.py:187-196 | the subject table of main.py, as written, never yields Matemática |
| CrmExport.MainMathShadowed | main.py:187-196 | `MATEMATICAS` reads as Matemática in processor.py and as Informática in main.py |
| CrmExport.CollectRecords | processor.py:214-238 | the record loop appends, in row order, the record of every row that yields one |
| CrmExport.RowRecordMeaning | processor.py:198-238 | a row yields a record iff it passes the platform, state, subject and level filters and its level, grade and subject all map; the record carries what they map to, a grade of 1 to 6 and the name `<subject> <grade><suffix>` |
| CrmExport.RecordsMeaning | processor.py:214-238 | the records are exactly those the rows yield, at most one per row |
| CrmExport.ClassNameInjective | processor.py:224 | a class name gives back its subject and its grade |
| CrmExport.MateriaRank | processor.py:234-246 | the subject's place is first exactly for Comunicación |
| CrmExport.Transformar | processor.py:179-248 | `transformar` computes the outcome of the specification function `Transform` |
| CrmExport.TransformMeaning | processor.py:179-248 | `transformar` fails iff a required column is absent; otherwise its rows are the rows' records, each as often as produced, sorted primary first, then by grade, then Comunicación first |
| SantillanaSubjects.RemoveGroupsKeepsChars | santillana_format/processor.py:131 | removing the parenthesised parts adds no character |
| SantillanaSubjects.RemoveGroupsLeavesNone | santillana_format/processor.py:131 | after the removal no `(` is followed by a `)` |
| SantillanaSubjects.RemoveGroupsOfNone | santillana_format/processor.py:131 | text without a parenthesised part is left as it is |
| SantillanaSubjects.AliasMeaning | santillana_format/processor.py:28-45 | an alias leads to one of the alias targets, and any key not listed stands for itself |
| SantillanaSubjects.MateriaKeyShape | santillana_format/processor.py:130-135 | the canonical key is INGLES, an alias target, or the cleaned and normalised cell itself |
| SantillanaSubjects.MapearNivel | santillana_format/processor.py:241-248 | a level is read only from a cell whose normalised text is that level's name |
| SantillanaSubjects.MapearNivelRoundTrip | santillana_format/processor.py:241-248 | each of the three level names reads back as its level |
| SantillanaSubjects.CodigoNivel | santillana_format/processor.py:251-253 | a level's code is one of the level letters the class catalog reads |
| SantillanaSubjects.CodigoNivelInjective | santillana_format/processor.py:251-253 | different levels have different codes |
| SantillanaSubjects.MateriaPermitidaMeaning | santillana_format/processor.py:138-148 | a subject is allowed only in a level that shares it; CIENCIAS INTEGRADAS only in primary grades 1 and 2; CIENCIAS SOCIALES in primary only in grade 6, in any secondary grade, never in Inicial |
| SantillanaSubjects.MateriaOfKey | santillana_format/processor.py:322-357 | the table never yields the combined science subject, and yields Ciencias Integradas, Plan Lector and Preescolar only from their own keys |
| SantillanaSubjects.TableSubjectsHaveSuffix | santillana_format/processor.py:322-357 | every subject the table yields has a suffix |
| SantillanaSubjects.PlanLectorNotShared | santillana_format/processor.py:47-75 | no level shares Plan Lector |
| SantillanaSubjects.PreescolarOnlyInicial | santillana_format/processor.py:47-75 | only Inicial shares pre-school |
| SantillanaSubjects.InicialSubjects | santillana_format/processor.py:47-75 | Inicial shares nothing but pre-school, English and technology |
| SantillanaSubjects.Orden | santillana_format/processor.py:360-382 | every subject has a place below 19 in the output order |
| SantillanaSubjects.OrdenRoundTrip | santillana_format/processor.py:360-382 | the subject at a subject's place is that subject |
| SantillanaSubjects.OrdenInjective | santillana_format/processor.py:360-382 | two subjects never share a place, so the `Materias` column never decides the order |
| SantillanaSubjects.LetraTecproMeaning | santillana_format/processor.py:256-262 | a letter exists exactly for primary grades 1 to 6 and secondary grades 1 to 5, and it gives back its level and grade |
| SantillanaSubjects.SeccionMatchesCatalog | santillana_format/processor.py:265-277 | the section test accepts exactly the names whose suffix the class catalog of profesores_clases.py parses |
| SantillanaSubjects.AppendedSectionDetected | santillana_format/processor.py:519-521 | a name with ` <grade><level>A` appended ends with a section |
| SantillanaExport.ParseGrupos | santillana_format/processor.py:78-100 | the token loop computes the groups of the specification function `NormalizeGrupos` |
| SantillanaExport.NormalizeGruposMeaning | santillana_format/processor.py:78-100 | the groups are never empty or repeated, are capitals, and are exactly the letters the tokens name, or A alone when none is named or nothing is given; the error lists exactly the invalid tokens and happens iff one exists |
| SantillanaExport.ApplyGrupoMeaning | santillana_format/processor.py:103-118 | a name ending in its section has its final A replaced by the group letter and keeps the rest; any other name is kept, with ` <group>` after it when there are several groups and the group is not A |
| SantillanaExport.ApplyGrupoInjective | santillana_format/processor.py:103-118 | with several groups, different groups of a row get different class names |
| SantillanaExport.GroupReadBack | santillana_format/processor.py:103-118 | a class named `<title><grade><level>A` is read back by the class catalog as that grade and level in the section of its group |
| SantillanaExport.FillDownMeaning | santillana_format/processor.py:399-407 | each filled cell holds the last non-empty cell at or above it, and stays empty when there is none |
| SantillanaExport.Leer | santillana_format/processor.py:431-434 | the subject is that of the canonical key; the grade is at most 6 and has a label iff a number |
| SantillanaExport.TecproProducto | santillana_format/processor.py:448-453 | an unpadded product stays unpadded after the Tecpro renaming |
| SantillanaExport.MapaInicial | santillana_format/processor.py:469-483 | the pre-school grade read from a word is 1 to 5 |
| SantillanaExport.NombreInicial | santillana_format/processor.py:484-492 | each pre-school grade has a name |
| SantillanaExport.KurmiFrom | santillana_format/processor.py:505 | the search finds the first position where `KURMI`, blanks and digits start, or there is none |
| SantillanaExport.KurmiMatchShape | santillana_format/processor.py:505-507 | a Kurmi match reads `KURMI`, then blanks and digits, and ends on a digit |
| SantillanaExport.BeforeParen | santillana_format/processor.py:509 | the text before the first `(` is a prefix holding no `(` |
| SantillanaExport.Reglas | santillana_format/processor.py:455-533 | a row that passes the rules has a level and a subject |
| SantillanaExport.ReglasMeaning | santillana_format/processor.py:455-533 | the rules keep the subject key and let through only a subject the level shares in that grade, whose class is admitted |
| SantillanaExport.RowClassMeaning | santillana_format/processor.py:440-533 | a row yields a class only if its state is validated or blank, its platform is not RLP, a Richmond platform carries English or an access code and its level shares its subject in its grade; no class is plain Ciencias Integradas or Plan Lector |
| SantillanaExport.ArmarOrdinary | santillana_format/processor.py:455-533 | for a subject other than pre-school a class is built iff level, grade and subject are known and shared; it carries them, Ciencias Integradas of primary grades 1 and 2 renamed |
| SantillanaExport.RowClassOrdinary | santillana_format/processor.py:431-533 | for a subject other than pre-school a row yields a class iff it passes the state, platform and Richmond filters and its level shares its known subject in its known grade |
| SantillanaExport.ArmarName | santillana_format/processor.py:522-523 | apart from pre-school and technology a class is named `<subject> <grade><level>A` |
| SantillanaExport.ArmarTecpro | santillana_format/processor.py:517-521 | a technology class with a Tecpro product gets a name ending in a section the class catalog recognises |
| SantillanaExport.AppendGroupRecords | santillana_format/processor.py:535-555 | the group loop appends one record per group, in group order |
| SantillanaExport.CollectRegistros | santillana_format/processor.py:430-555 | the row loop appends, class by class, the group records of each row that yields a class |
| SantillanaExport.RegistrosCount | santillana_format/processor.py:535-555 | every class yields one record per group |
| SantillanaExport.RegistrosMeaning | santillana_format/processor.py:535-555 | a record is produced iff it is the record of some class in some group |
| SantillanaExport.DedupeMeaning | santillana_format/processor.py:561-564 | de-duplication keeps input records only, every key of the input exactly once, and the first record of each key |
| SantillanaExport.Transformar | santillana_format/processor.py:385-570 | `transformar` computes the outcome of the specification function `Transform` |
| SantillanaExport.TransformMeaning | santillana_format/processor.py:385-570 | a KeyError iff a required column is absent; a group error only for a non-empty sheet; otherwise the table is sorted by level, grade, subject and group, holds produced records with every key once and the first record of each |
| SantillanaExport.OutputMeaning | santillana_format/processor.py:560-568 | the table built from records is sorted, holds only those records, every key once and the first record of each key |
| SantillanaExport.GroupRecordOrder | santillana_format/processor.py:425-427 | a record's group position is its group letter's place in the list, counted from 1 |
| SantillanaExport.RecordReadBack | santillana_format/processor.py:535-555 | the class catalog reads every record of an ordinary class back as the class's grade and level in the record's group |
| SantillanaExport.ProcessExcelMeaning | santillana_format/processor.py:619-654 | the run fails for a missing code column exactly; a finished run has at least one output and one filtered row, no more than the sheet holds, and its rows are the template of the rows carrying the code |
| Duplicados.NormalizeTextShape | santillana_format/duplicados.py:274-283 | a normalised text is its words joined by single spaces, has no lower-case letter, and its words are the input's, accent-folded and upper-cased |
| Duplicados.NombreTokensMeaning | santillana_format/duplicados.py:286-293 | at most four non-empty name words, the leading words of the normalised text, all of them when there are four or fewer, none iff the text is empty |
| Duplicados.RowKeysMeaning | santillana_format/duplicados.py:341-351 | a row has at most one key, and has one iff both surnames, the name, the date, the grade and the group are present |
| Duplicados.PrefixKeysMeaning | santillana_format/duplicados.py:383-387 | the prefix keys are distinct, one per word, and are exactly the head, a leading run of words joined by spaces, and the tail |
| Duplicados.NamePrefixKeysMeaning | santillana_format/duplicados.py:377-387 | one name-prefix key per name word, at most four, each naming both surnames and a leading run of words; none without both surnames and a name |
| Duplicados.IdentityKeysMeaning | santillana_format/duplicados.py:363-374 | one identity key per name word, at most four, each naming both surnames, a leading run of words and the date; none without both surnames, a name and a date |
| Duplicados.BuildBaseMap | santillana_format/duplicados.py:418-424 | the base map lists a base row under a key iff the row has that key |
| Duplicados.CollectPairs | santillana_format/duplicados.py:426-433 | the pairs collected are exactly the (base, new) rows with a key in common |
| Duplicados.SortPairs | santillana_format/duplicados.py:435 | the sorted pairs are the set's, in increasing order |
| Duplicados.PairIndices | santillana_format/duplicados.py:413-435 | the (base, new) pairs of rows sharing a key, each once, in increasing order |
| Duplicados.MissingKeyColumnsMeaning | santillana_format/duplicados.py:254-261 | the check passes exactly when every key column is present |
| Duplicados.UnionMeaning | santillana_format/duplicados.py:390-399 | the base keys are exactly the keys some row has |
| Duplicados.BuildKeyIndex | santillana_format/duplicados.py:390-399 | the loop collects every base row's keys and counts the rows without one |
| Duplicados.BuildKeysPerRow | santillana_format/duplicados.py:402-410 | the loop lists each new row's keys in order and counts the rows without one |
| Duplicados.PositionsMeaning | santillana_format/duplicados.py:92-94 | the selected positions are increasing and are exactly those the mask marks as wanted |
| Duplicados.PositionsSplit | santillana_format/duplicados.py:92-94 | the repeated and the other rows together number all the rows |
| Duplicados.CompareAlumnos | santillana_format/duplicados.py:75-104 | `compare_alumnos` computes the outcome of the specification function `Compare` |
| Duplicados.CompareFails | santillana_format/duplicados.py:75-88 | the comparison fails for a sheet without its key columns, or a base where no row has a key |
| Duplicados.CompareMeaning | santillana_format/duplicados.py:75-104 | a new row is repeated iff some base row shares its key; a keyless new row never is; repeated and other rows are in sheet order, and their counts add up to the new rows |
| Duplicados.CompareKeysMeaning | santillana_format/duplicados.py:84-104 | over key sets: the base has no key iff no base row has one, and the split marks a new row iff some base row shares one of its keys |
| Duplicados.GradoSeccionDiferente | santillana_format/duplicados.py:145-165 | fails iff a sheet lacks a key column; otherwise the increasing (base, new) pairs sharing an identity key whose normalised grade or group differ |
| Duplicados.FilterPairs | santillana_format/duplicados.py:153-163 | the filter keeps, in order, exactly the pairs that pass the test |
| Duplicados.BaseCols | santillana_format/duplicados.py:173-177 | the `base_` columns kept are exactly those naming the name or a surname |
| Duplicados.NuevoCols | santillana_format/duplicados.py:173-181 | the `nuevo_` columns kept are exactly those naming the name or a surname, never a `base_` column |
| Duplicados.NuevoNotBase | santillana_format/duplicados.py:174-178 | a `nuevo_` column is never a `base_` one |
| Duplicados.SelectBasicaKeepsAll | santillana_format/duplicados.py:168-185 | an empty frame, or one without an important column, is kept whole |
| Duplicados.SelectBasicaSelects | santillana_format/duplicados.py:168-185 | otherwise the selection keeps exactly the important base and new columns, base ones first |
| AlumnosCompare.NormalizeTextIdempotent | santillana_format/alumnos_compare.py:206-211 | normalised text is its own normal form |
| AlumnosCompare.KeysPresent | santillana_format/alumnos_compare.py:249-265 | a row enters the surname indexes only with both surnames, whatever its NUIP, and the initial index also needs a name; its NUIP is indexed whenever it has digits |
| AlumnosCompare.ApellidosKeyInjective | santillana_format/alumnos_compare.py:258 | rows with the same surname key have the same normalised surnames |
| AlumnosCompare.OccurrencesMeaning | santillana_format/alumnos_compare.py:249-265 | the positions listed under a key are increasing and exactly those holding it |
| AlumnosCompare.BuildBaseIndexes | santillana_format/alumnos_compare.py:249-265 | each index lists under every key exactly the BD rows with that key, in order, and holds no other key |
| AlumnosCompare.IndexHit | santillana_format/alumnos_compare.py:321-335 | looking a key up in an index finds it iff some row has it, and then finds exactly the rows holding it |
| AlumnosCompare.MatchKeysMeaning | santillana_format/alumnos_compare.py:318-335 | over the rows' keys: N1 iff a NUIP hit, N2 iff no NUIP hit and a surname hit, N3 iff neither and an initial hit; no tier returns no rows |
| AlumnosCompare.MatchRowMeaning | santillana_format/alumnos_compare.py:318-335 | matching is tiered: a NUIP hit first, then both surnames, then surnames with the initial only when neither hit |
| AlumnosCompare.MatchRowRows | santillana_format/alumnos_compare.py:318-335 | the rows returned are, in order, exactly the BD rows sharing the deciding key; no hit returns no rows |
| AlumnosCompare.AnyEqualMeaning | santillana_format/alumnos_compare.py:360-364 | the loop finds a match iff some listed BD row has the same normalised value |
| AlumnosCompare.MatchFieldMeaning | santillana_format/alumnos_compare.py:351-364 | no verdict iff no rows or a blank value; true iff some matched row agrees once normalised |
| AlumnosCompare.IsChanged | santillana_format/alumnos_compare.py:495-502 | a change iff the new value normalises to non-empty text different from the old one's |
| AlumnosCompare.NormalizeGrupoShape | santillana_format/alumnos_compare.py:441-452 | a normalised group is one lower-case letter, a number in digits, or empty exactly when the text held nothing but `grupo` |
| AlumnosCompare.NormalizeGrupoIdempotent | santillana_format/alumnos_compare.py:441-452 | normalising a normalised group changes nothing |
| AlumnosCompare.Puntaje | santillana_format/alumnos_compare.py:521-527 | a candidate scores at most 4 |
| AlumnosCompare.PickBestMatch | santillana_format/alumnos_compare.py:505-531 | none iff no candidate; a single candidate is taken as it is; otherwise the first candidate with the highest score |
| AlumnosCompare.FirstBest | santillana_format/alumnos_compare.py:517-530 | the scan returns a candidate whose score none beats and which every earlier candidate scores below |
| AlumnosCompare.TallyMeaning | santillana_format/alumnos_compare.py:268-315 | every updated row lands in exactly one tier or in "no match"; grade and group mismatches are counted only for matched rows |
| AlumnosCompare.ClasificarActualizados | santillana_format/alumnos_compare.py:268-315 | the counting loop gives the counters of the specification function `Tally` over the rows' results |
| AlumnosCompare.LoginsMeaning | santillana_format/alumnos_compare.py:472-483 | the login set holds exactly the non-empty normalised logins of the rows |
| AlumnosCompare.CollectLogins | santillana_format/alumnos_compare.py:473-477 | the collecting loop builds the set of non-empty normalised logins |
| AlumnosCompare.BuildLoginSummary | santillana_format/alumnos_compare.py:472-492 | the summary counts the distinct logins of each sheet, those in both and those in only one; matched and unmatched logins of each sheet add up to its total |
| AlumnosCompare.LoginIndexMeaning | santillana_format/alumnos_compare.py:461-469 | the index holds exactly the non-empty logins, each under the first row with it |
| AlumnosCompare.BuildLoginIndex | santillana_format/alumnos_compare.py:461-469 | the loop builds the first-row index of the rows' normalised logins |
| AlumnosCompare.Fusion | santillana_format/alumnos_compare.py:549-576 | an output row is active, and carries the new level, grade and group all together when one changed, or all blank |
| AlumnosCompare.EmparejadasMeaning | santillana_format/alumnos_compare.py:540-546 | the positions kept are increasing and exactly those whose login is among the given logins |
| AlumnosCompare.EmitidasMeaning | santillana_format/alumnos_compare.py:540-578 | one output row per updated row whose login the index holds, built with the BD row the index gives |
| AlumnosCompare.EmitRows | santillana_format/alumnos_compare.py:540-578 | the row loop emits the rows of the specification function `Emitidas` |
| AlumnosCompare.ActivaNoVacia | santillana_format/alumnos_compare.py:580-583 | an active row is never blank |
| AlumnosCompare.SinVaciasActivas | santillana_format/alumnos_compare.py:580-583 | rows that are all active pass the blank-row filter untouched |
| AlumnosCompare.ComparacionBdEmitidas | santillana_format/alumnos_compare.py:534-583 | the blank-row filter keeps every emitted row |
| AlumnosCompare.BuildComparacionBd | santillana_format/alumnos_compare.py:534-583 | the comparison is the specification function `ComparacionBd`: nothing for an empty sheet, else the emitted rows |
| AlumnosCompare.EmitidasFirst | santillana_format/alumnos_compare.py:534-578 | the rows follow, in order, the updated rows whose login is a non-empty BD login, each fused with the first BD row having that login |
| CompactDate.SafeDate | santillana_format/alumnos_compare.py:671-675 | a date iff the year, month and day form a valid calendar date, and then that date |
| CompactDate.ReadEight | santillana_format/alumnos_compare.py:650-668 | a date is read only from exactly eight digits, and is a valid date of 1900 to 2099 |
| CompactDate.ParseCompactDateYmd | santillana_format/alumnos_compare.py:650-668 | every valid date of 1900 to 2099 written year, month, day, with any digit-free separator, is read back as that date |
| CompactDate.ParseCompactDateDmy | santillana_format/alumnos_compare.py:650-668 | every valid date of 1900 to 2099 written day, month, year is read back as that date: the year-first reading never succeeds on it |

## Left out

- Reading and writing files (Excel/CSV reading with pandas, sheet-name resolution, the header canonicalisation of the other modules and the renaming of the data frame by `ProfesoresPassword.CanonicalizeColumns`'s mapping, the Excel export of `listar_profesores`, preview rows): the model starts from rows already read as maps from canonical column name to cell text, and ends at the records the source would write.
- HTTP: URLs, tokens, sessions, timeouts, status codes, `_request_json`, `_fetch_staff`, `_assign_profesor`, `_delete_profesor`, `_fetch_profesores_list`, `_fetch_profesor_detail`: each remote call is an oracle parameter indexed by the call's position in the run, so every success and failure path is modelled but no request is built.
- Log lines, progress callbacks and the text of warnings: the model records what a warning is about (the conflicting columns of a group, the (key, persona) pairs of an index collision, the missing groups, the repeated personas, the skipped personas), not its wording.
- Unicode: text is ASCII plus the accented Spanish letters; NFD decomposition and the removal of combining marks fold those letters and leave ASCII unchanged, and other decomposable characters are not folded.
- Profesores.ActivosOf: uses the corrected `ParseActivo` (see "## Findings"), so an `activo` of `sí` is active here and inactive in the source, which calls `_parse_activo` as written.
- Profesores.ActivosOfMeaning: stated over the corrected `ParseActivo`; it differs from the source's map only for an `activo` of `sí` (`ParseActivoDiffersOnlyOnAccent`).
- Profesores.ExtractNivelesActivosMap: computes the map with the corrected `ParseActivo`, as `ActivosOf` above.
- Profesores.ItemStep: the listing fold reads `activo` with the corrected `ParseActivo`, so an item whose `activo` is `sí` is active with `Estado` `Activo` here and inactive in the source.
- Profesores.DetailStep: the detail fold reads `activo` with the corrected `ParseActivo`, with the same difference on `sí`.
- Profesores.ListarProfesoresData: inherits the corrected `ParseActivo` of the two folds; every other branch follows the source.
- Letters.IsLetter: only ASCII letters count as group letters; Python's `upper().isalpha()` in `_parse_grupo_letras` (santillana_format/cli.py), `_normalize_grupos` (santillana_format/processor.py) and `_parse_sections` (santillana_format/richmond_groups.py) also accepts `Ñ`, `Á` and other letters, which the model reports as invalid.
- Letters.ScanInvalid: reports a token such as `ñ` or `á` as invalid, where the source accepts it (the ASCII-only `IsLetter` above).
- Numbers in cells are integers; floating-point cells (`12.0`) and their truncation by `int()` are not modelled, NaN is a separate cell kind.
- SyncRecords.ConflictColumns: records the set of conflicting columns of a group; the source emits one warning per conflicting value, so repeated conflicts in one column collapse to one.
- ProfesoresSyncSpec.IndexClashes: a set of (key, persona) pairs; the source appends a warning per collision, so two identical collisions collapse to one.
- ProfesoresSync.MatchExcelToApi: reports missing groups by their position; the label text and the "first 10, then `... y N mas`" formatting of `sync_profesores` are not modelled.
- ProfesoresSync.Sync.InactivarTodos: the order of the inactivation requests follows a dict's insertion order in the source; the model proves the set of levels requested and the counts, for an order it chooses.
- ProfesoresSync.Sync.AssignLevels: the sorted order of the level ids in the request payload is not modelled; the call is made with the desired set.
- The password update reuses `ProfesoresClases.IsTruthy` and `ProfesoresClases.ParsePersonaId`: `_is_truthy` and `_parse_persona_id` of santillana_format/profesores_password.py:202-255 have the same code as those of the class reconciliation.
- ProfesoresPassword.ActualizarPasswords: the default company and cycle ids, the URL template and the login/password payload belong to the oracle; the model checks which (persona, level id) pairs are called, in which order, and what is counted.
- Alumnos: the grade names of `GRADOS_POR_NIVEL`, the request URL of `_build_url` and the response decoding of `_fetch_alumnos` are not modelled; a request's outcome is an oracle giving the students, the error text and the status code.
- Alumnos.Flatten: a nested `persona`, `nivel`, `grado` or `grupo` value that is truthy but not an object (where the source raises) is not modelled; absent or empty ones are empty maps.
- Cli: the argument parser and the dispatch of `main`, the `clases` and `depurar` commands (file reading, export and printing), the request and response decoding of the class listing and of each deletion, and the printed class list are not modelled; the listing and each deletion are oracles.
- Cli.PathName: `Path(value).name` is modelled as the last non-empty `/`-separated component; `.` and `..` components are not treated specially.
- Cli.ResolveToken: the environment variable's value is a parameter.
- RichmondGroups: reading the workbook (`.xlsx` check, pandas), the HTTP session, the institution change, the paginated listing of existing groups and each creation request are oracles: the institution change is a flag, the listing an optional list of names, and each creation a function of its position; the detail texts, group ids and progress callbacks are not modelled.
- RichmondGroups.NormalizeText: combining marks are removed for the Spanish letters (á é í ó ú ü ñ and their capitals) only; other decomposable characters are not folded.
- RichmondGroups.ParseGrade: only ASCII digits count as digits.
- ProfesoresClases.FormatLevels: a ghost function; only its "sin niveles" case and the all-wildcard summary are proved about its text.
- Sheet: reading the workbook (`cargar_excel`, the retry without a header, `_to_bytes`), the Excel export and the printed summary of `main.py` are not modelled; a sheet is its header row's columns and its rows as maps from column to cell text, and the raw rows scanned for the header are sequences of optional cells.
- Sheet.FilterCode: the cell text is the one `astype(str)` gives (an empty cell reads "nan"); numeric cells and their `str()` forms are not modelled.
- RecordSort: the order of records with equal keys is that of an insertion sort (stable); pandas' `sort_values` with its default quicksort does not promise stability, so only sortedness and the permutation are claimed about ties.
- CrmExport.RowRecord: always maps the subject with the table of processor.py; the `transformar` of main.py, which differs only in that table (see "## Findings"), is not run through `Transform`, so its export, where `MATEMATICAS` becomes Informática and the Informática case of `CrmExport.MateriaRank` is reached, is modelled only through `CrmExport.MainMapearMateria`.
- CrmExport: the columns `Grupo` ("Grupo A") and `Alias Clase` (empty) are constants of every record and are not stored; `Nombre de Clase` and `Clase Clave` are one field.
- SantillanaExport: the Loqueleo naming rule for Plan Lector is modelled but unreachable, since no level shares Plan Lector (`SantillanaSubjects.PlanLectorNotShared`), so nothing is proved about it.
- SantillanaExport: cell values are text; the `fillna("")`, `astype(str)` and forward-fill of pandas are written out on text cells, and the `Institucion` column, which is filled down but never read, is not modelled.
- SantillanaExport.KurmiFrom: the search runs on the upper-cased product, which for ASCII letters is the same as the source's case-insensitive search on the product; the match is taken from the upper-cased text, as the source upper-cases it.
- Duplicados: reading and exporting the files, sheet-name resolution, header canonicalisation (`_canonicalize_columns`), the comparison frame built from the pairs (`_build_comparacion_frame`), `find_coincidencias_nombre_apellidos`, `build_comparacion_clave`, `build_comparacion_nombre` and `select_comparacion_con_grado` are not modelled; the pairing and key builders they use are.
- Duplicados: `_normalize_date` delegates to pandas date parsing; the normalised birth date is an opaque text field of each row.
- Duplicados.BuildKeyIndex, Duplicados.BuildKeysPerRow, Duplicados.PairIndices: work on the rows' key sets computed first (`KeySets`), which is the same as calling the key builder inside the loop.
- AlumnosCompare: reading the sheets, header canonicalisation, the Excel export, the enriched frame of `_clasificar_actualizados` (`Match Tipo`, `BD Grado`, `BD Grupo`, the flags and the `Comentario` text of `_comment_for_match`, `_collect_matches`, `_format_match_flag`) and `_build_alumnos_crear` are not modelled; the counters are.
- AlumnosCompare: the conversion of the birth-date column of the comparison sheet (`_parse_fecha_excel`, `_parse_numeric_string`, `_parse_excel_serial`) works on floats, timestamps and pandas types and is not modelled; `CompactDate` models `_parse_compact_date` and `_safe_date`, which it uses.
- AlumnosCompare: `comparar_plantillas` only chains the reads, the summary, the comparison and the export; the summary's `actualizados_total`, `base_total` and `archivo_base` are the sheets' lengths and the file name.
- AlumnosCompare.CleanCell: models `_clean_cell_value` on text cells; `None` and NaN cells are modelled as absent or "nan" text.
- AlumnosCompare.ComparacionBd: an empty data frame is a sheet without rows; the final conversion of the date column is left out as above.
- AlumnosCompare.FirstBest: takes the score as a function value; the source computes it inline.
- CompactDate: only ASCII digits count as digits (`re.sub(r"\D", "", ...)` also keeps other Unicode digits).

## Findings

| source | as written | input that shows it | evidently intended | confidence | as-written member | corrected member |
|---|---|---|---|---|---|---|
| santillana_format/profesores.py:313 | the accepted words are `{"true", "1", "si", "sÃ­", "yes"}`: the accented word is stored as the UTF-8 bytes of `í` decoded as Latin-1, which a lower-cased, stripped cell never equals | a level whose `activo` is the text `"sí"` (or `"SÍ"`) parses as inactive | `"sí"` is accepted like `"si"` | not executed | Profesores.ParseActivoRejectsAccentedSi | Profesores.ParseActivoOfPaddedWord |
| main.py:187-196 | the subject dict literal lists the key `MATEMATICAS` twice, first with `("Matemática", "MA")` and then with `("Informática", "IN")`; the later entry wins | a row whose subject is `MATEMATICAS` is named `Informática <n>IN` | `MATEMATICAS` reads as Matemática with suffix MA, as in processor.py:168-176 | not executed | CrmExport.MainMathShadowed | CrmExport.MapearMateriaRoundTrip |
