/**
 * The subject, level and grade rules of the class-template export in
 * santillana_format/processor.py: the canonical subject key with its alias
 * table, the subjects each level may share, the subject table with names,
 * suffixes and sort order, the level names, the Tecpro letters and the
 * class-name section test.
 */
module SantillanaSubjects {
  import opened Text
  import opened Sheet
  import ProfesoresClases

  // ------------------------------------------------------------ parentheses

  /** The index of the first `)` at or after `k`. */
  function CloseFrom(s: seq<char>, k: nat): (r: Option<nat>)
    requires k <= |s|
    ensures r.Some? ==> k <= r.value < |s| && s[r.value] == ')'
    ensures r.Some? ==> forall j :: k <= j < r.value ==> s[j] != ')'
    ensures r.None? ==> forall j :: k <= j < |s| ==> s[j] != ')'
    decreases |s| - k
  {
    if k == |s| then None
    else if s[k] == ')' then Some(k)
    else CloseFrom(s, k + 1)
  }

  /** The length of a match of `\s*\([^)]*\)` at the start of `s`, if there is one. */
  function GroupAtStart(s: seq<char>): (r: Option<nat>)
    ensures r.Some? ==> 0 < r.value <= |s|
  {
    var w := |s| - |TrimStart(s)|;
    if w < |s| && s[w] == '(' then
      match CloseFrom(s, w + 1)
      case None => None
      case Some(j) => Some(j + 1)
    else None
  }

  /** `re.sub(r"\s*\([^)]*\)", "", s)`: every parenthesised part, with the blanks before it, removed. */
  function RemoveGroups(s: seq<char>): seq<char>
    decreases |s|
  {
    if s == [] then []
    else match GroupAtStart(s)
      case Some(e) => RemoveGroups(s[e..])
      case None => [s[0]] + RemoveGroups(s[1..])
  }

  /** Text holding a `(` with a `)` somewhere after it. */
  predicate HasGroup(s: seq<char>) {
    exists i, j :: 0 <= i < j < |s| && s[i] == '(' && s[j] == ')'
  }

  lemma {:induction false} RemoveGroupsKeepsChars(s: seq<char>)
    ensures forall c :: c in RemoveGroups(s) ==> c in s
    decreases |s|
  {
    if s != [] {
      match GroupAtStart(s) {
        case Some(e) => RemoveGroupsKeepsChars(s[e..]);
        case None => RemoveGroupsKeepsChars(s[1..]);
      }
    }
  }

  /** After the removal no `(` is followed by a `)`: every parenthesised part is gone. */
  lemma {:induction false} RemoveGroupsLeavesNone(s: seq<char>)
    ensures !HasGroup(RemoveGroups(s))
    decreases |s|
  {
    if s != [] {
      match GroupAtStart(s) {
        case Some(e) => RemoveGroupsLeavesNone(s[e..]);
        case None =>
          var rest := RemoveGroups(s[1..]);
          RemoveGroupsLeavesNone(s[1..]);
          var r := [s[0]] + rest;
          if s[0] == '(' {
            TrimStartShape(s);
            assert CloseFrom(s, 1).None?;
            RemoveGroupsKeepsChars(s[1..]);
            forall c | c in s[1..]
              ensures c != ')'
            {
              var k :| 0 <= k < |s[1..]| && s[1..][k] == c;
              assert s[k + 1] == c;
            }
            forall j | 0 <= j < |rest|
              ensures rest[j] != ')'
            {
              assert rest[j] in rest;
            }
          }
          forall i, j | 0 <= i < j < |r| && r[i] == '('
            ensures r[j] != ')'
          {
            if i > 0 {
              assert rest[i - 1] == '(' && rest[j - 1] == r[j];
            }
          }
      }
    }
  }

  /** Text with no parenthesised part is left as it is. */
  lemma {:induction false} RemoveGroupsOfNone(s: seq<char>)
    requires !HasGroup(s)
    ensures RemoveGroups(s) == s
    decreases |s|
  {
    if s != [] {
      var w := |s| - |TrimStart(s)|;
      TrimStartShape(s);
      if w < |s| && s[w] == '(' {
        assert forall j :: w < j < |s| ==> s[j] != ')';
      }
      assert GroupAtStart(s).None?;
      assert !HasGroup(s[1..]) by {
        forall i, j | 0 <= i < j < |s[1..]| && s[1..][i] == '('
          ensures s[1..][j] != ')'
        {
          assert s[i + 1] == '(';
        }
      }
      RemoveGroupsOfNone(s[1..]);
    }
  }

  // ------------------------------------------------------------ subject keys

  /** The keys the alias table leads to. */
  datatype Destino = ACienciasIntegradas | ATecnologia | AMatematicas | ADpcc | ABiologiaFisicaQuimica

  function DestinoKey(d: Destino): seq<char> {
    match d
    case ACienciasIntegradas => "CIENCIAS INTEGRADAS"
    case ATecnologia => "TECNOLOGIA"
    case AMatematicas => "MATEMATICAS"
    case ADpcc => "DPCC"
    case ABiologiaFisicaQuimica => "BIOLOGIA-FISICA-QUIMICA"
  }

  /** The entries of `MATERIA_KEY_ALIASES`: the key each listed key leads to. */
  function AliasOf(key: seq<char>): Option<Destino> {
    if key == "CIENCIA Y TECNOLOGIA - PERSONAL SOCIAL" then Some(ACienciasIntegradas)
    else if key == "CIENCIA Y TECNOLOGIA PERSONAL SOCIAL" then Some(ACienciasIntegradas)
    else if key == "CIENCIA TECNOLOGIA - PERSONAL SOCIAL" then Some(ACienciasIntegradas)
    else if key == "CIENCIA TECNOLOGIA PERSONAL SOCIAL" then Some(ACienciasIntegradas)
    else if key == "INFORMATICA" then Some(ATecnologia)
    else if key == "MATEMATICA" then Some(AMatematicas)
    else if key == "DESARROLLO PERSONAL" then Some(ADpcc)
    else if key == "CIUDADANIA Y CIVICA" then Some(ADpcc)
    else if key == "CUIDADANIA Y CIVICA" then Some(ADpcc)
    else if key == "DESARROLLO PERSONAL CIUDADANIA Y CIVICA" then Some(ADpcc)
    else if key == "DESARROLLO PERSONAL CUIDADANIA Y CIVICA" then Some(ADpcc)
    else if key == "DPCC" then Some(ADpcc)
    else if key == "BIOLOGIA" then Some(ABiologiaFisicaQuimica)
    else if key == "FISICA" then Some(ABiologiaFisicaQuimica)
    else if key == "QUIMICA" then Some(ABiologiaFisicaQuimica)
    else if key == "BIOLOGIA-FISICA-QUIMICA" then Some(ABiologiaFisicaQuimica)
    else None
  }

  /** `MATERIA_KEY_ALIASES.get(key, key)`. */
  function Alias(key: seq<char>): seq<char> {
    match AliasOf(key)
    case Some(d) => DestinoKey(d)
    case None => key
  }

  const AliasTargets: set<seq<char>> :=
    {"CIENCIAS INTEGRADAS", "TECNOLOGIA", "MATEMATICAS", "DPCC", "BIOLOGIA-FISICA-QUIMICA"}

  /** `_canonical_materia_key`: parentheses dropped, normalised, any English subject as INGLES, then the alias. */
  function MateriaKey(v: seq<char>): seq<char> {
    var key := NormalizeKey(Strip(RemoveGroups(v)));
    if IsInfix("INGLES", key) then "INGLES" else Alias(key)
  }

  /** An alias leads to one of the alias targets; any other key stands for itself. */
  lemma AliasMeaning(key: seq<char>)
    ensures Alias(key) == key || Alias(key) in AliasTargets
  {
  }

  /** The canonical key is INGLES, an alias target, or the cleaned cell itself. */
  lemma MateriaKeyShape(v: seq<char>)
    ensures var key := NormalizeKey(Strip(RemoveGroups(v)));
      MateriaKey(v) == "INGLES" || MateriaKey(v) in AliasTargets || MateriaKey(v) == key
  {
    AliasMeaning(NormalizeKey(Strip(RemoveGroups(v))));
  }

  // ------------------------------------------------------------ levels

  /** The levels the export names. */
  datatype Nivel = Inicial | Primaria | Secundaria

  function NivelName(n: Nivel): seq<char> {
    match n
    case Inicial => "Inicial"
    case Primaria => "Primaria"
    case Secundaria => "Secundaria"
  }

  /** The normalised level cell each level is read from. */
  function NivelKey(n: Nivel): seq<char> {
    match n
    case Inicial => "EDUCACION INICIAL"
    case Primaria => "EDUCACION PRIMARIA"
    case Secundaria => "EDUCACION SECUNDARIA"
  }

  /** `_mapear_nivel`: the three level names, anything else maps to no level (`""`). */
  function MapearNivel(v: seq<char>): (r: Option<Nivel>)
    ensures r.Some? ==> NormalizeKey(v) == NivelKey(r.value)
  {
    var k := NormalizeKey(v);
    if k == NivelKey(Inicial) then Some(Inicial)
    else if k == NivelKey(Primaria) then Some(Primaria)
    else if k == NivelKey(Secundaria) then Some(Secundaria)
    else None
  }

  /** Each level's name reads back as that level. */
  lemma MapearNivelRoundTrip(n: Nivel)
    ensures MapearNivel(NivelKey(n)) == Some(n)
  {
    var x := NivelKey(n);
    assert forall i :: 0 <= i < |x| ==> IsUpper(x[i]) || x[i] == ' ';
    NormalizeKeyOfPlain(x);
  }

  /** `_codigo_nivel`: the letter a class name carries for its level. */
  function CodigoNivel(n: Nivel): (c: char)
    ensures ProfesoresClases.IsLevelLetter(c)
  {
    match n
    case Inicial => 'I'
    case Primaria => 'P'
    case Secundaria => 'S'
  }

  lemma CodigoNivelInjective(a: Nivel, b: Nivel)
    requires CodigoNivel(a) == CodigoNivel(b)
    ensures a == b
  {
  }

  /** `_orden_nivel`. */
  function NivelOrden(n: Nivel): nat {
    match n
    case Inicial => 0
    case Primaria => 1
    case Secundaria => 2
  }

  // ------------------------------------------------------------ sharing rules

  /** `MATERIAS_COMPARTIR`: the subject keys each level shares. */
  function Compartidas(n: Nivel): set<seq<char>> {
    match n
    case Inicial => {"PREESCOLAR", "INGLES", "TECNOLOGIA"}
    case Primaria => {
      "MATEMATICAS", "COMUNICACION", "PERSONAL SOCIAL", "CIENCIAS SOCIALES",
      "CIENCIA Y TECNOLOGIA", "CIENCIAS INTEGRADAS", "RAZONAMIENTO MATEMATICO",
      "RAZONAMIENTO VERBAL", "RELIGION", "INGLES", "TECNOLOGIA"}
    case Secundaria => {
      "MATEMATICAS", "COMUNICACION", "CIENCIAS SOCIALES", "CIENCIA Y TECNOLOGIA",
      "RAZONAMIENTO MATEMATICO", "RAZONAMIENTO VERBAL", "RELIGION", "INGLES",
      "TECNOLOGIA", "DPCC", "BIOLOGIA-FISICA-QUIMICA"}
  }

  /** `_materia_permitida`. */
  predicate MateriaPermitida(nivel: Option<Nivel>, key: seq<char>, grado: nat) {
    nivel.Some? && key in Compartidas(nivel.value) &&
    !(key == "CIENCIAS INTEGRADAS" && !(nivel == Some(Primaria) && (grado == 1 || grado == 2))) &&
    !(key == "CIENCIAS SOCIALES" && nivel == Some(Primaria) && grado != 6)
  }

  /**
   * A subject is shared only in a level that lists it; CIENCIAS INTEGRADAS
   * only in grades 1 and 2 of primary, and CIENCIAS SOCIALES in primary only
   * in grade 6 (and in any secondary grade).
   */
  lemma MateriaPermitidaMeaning(nivel: Option<Nivel>, key: seq<char>, grado: nat, ci: seq<char>, cs: seq<char>)
    requires ci == "CIENCIAS INTEGRADAS" && cs == "CIENCIAS SOCIALES"
    ensures MateriaPermitida(nivel, key, grado) ==> nivel.Some? && key in Compartidas(nivel.value)
    ensures MateriaPermitida(nivel, ci, grado) <==> nivel == Some(Primaria) && (grado == 1 || grado == 2)
    ensures MateriaPermitida(Some(Primaria), cs, grado) <==> grado == 6
    ensures MateriaPermitida(Some(Secundaria), cs, grado)
    ensures !MateriaPermitida(Some(Inicial), cs, grado)
  {
    assert ci in Compartidas(Primaria) && cs in Compartidas(Primaria) && cs in Compartidas(Secundaria);
    assert ci !in Compartidas(Inicial) && ci !in Compartidas(Secundaria) && cs !in Compartidas(Inicial);
  }

  // ------------------------------------------------------------ subjects

  /** The subjects of the subject table, and the combined one primary grades 1 and 2 are renamed to. */
  datatype Materia =
    | CienciaTecnologia | CienciaTecnologiaPersonalSocial | CienciasIntegradas | CienciasSociales
    | BiologiaFisicaQuimica | Comunicacion | Dpcc | Tecnologia | Ingles | Lecturas | Matematica
    | PersonalSocial | PlanLector | Preescolar | RazonamientoMatematico | RazonamientoVerbal
    | Religion | Tutoria | Caligrafia

  /** The subject's name in the `Materias` column. */
  function MateriaName(m: Materia): seq<char> {
    match m
    case CienciaTecnologia => "Ciencia y Tecnología"
    case CienciaTecnologiaPersonalSocial => "Ciencia y Tecnología - Personal Social"
    case CienciasIntegradas => "Ciencias Integradas"
    case CienciasSociales => "Ciencias Sociales"
    case BiologiaFisicaQuimica => "Biología-Física-Química"
    case Comunicacion => "Comunicación"
    case Dpcc => "Desarrollo Personal Ciudadanía y Cívica"
    case Tecnologia => "Tecnología"
    case Ingles => "Inglés"
    case Lecturas => "Lecturas"
    case Matematica => "Matemática"
    case PersonalSocial => "Personal Social"
    case PlanLector => "Plan Lector"
    case Preescolar => "Preescolar"
    case RazonamientoMatematico => "Razonamiento Matemático"
    case RazonamientoVerbal => "Razonamiento Verbal"
    case Religion => "Educación Religiosa"
    case Tutoria => "Tutoría y Orientación Educativa"
    case Caligrafia => "Caligrafía"
  }

  /** The suffix the subject table gives; the combined subject only arises by renaming and has none of its own. */
  function Sufijo(m: Materia): seq<char> {
    match m
    case CienciaTecnologia => "CT"
    case CienciaTecnologiaPersonalSocial => ""
    case CienciasIntegradas => "CI"
    case CienciasSociales => "CS"
    case BiologiaFisicaQuimica => "BFQ"
    case Comunicacion => "CO"
    case Dpcc => "DPCC"
    case Tecnologia => "TE"
    case Ingles => "IG"
    case Lecturas => "LE"
    case Matematica => "MA"
    case PersonalSocial => "PS"
    case PlanLector => "PL"
    case Preescolar => "PE"
    case RazonamientoMatematico => "RM"
    case RazonamientoVerbal => "RV"
    case Religion => "RE"
    case Tutoria => "TO"
    case Caligrafia => "CA"
  }

  /** The subject table of `_mapear_materia`, looked up by canonical key. */
  function MateriaOfKey(k: seq<char>): (r: Option<Materia>)
    ensures r != Some(CienciaTecnologiaPersonalSocial)
    ensures r == Some(CienciasIntegradas) ==> k == "CIENCIAS INTEGRADAS"
    ensures r == Some(PlanLector) ==> k == "PLAN LECTOR"
    ensures r == Some(Preescolar) ==> k == "PREESCOLAR"
  {
    if k == "CALIGRAFIA" then Some(Caligrafia)
    else if k == "CIENCIA Y TECNOLOGIA" then Some(CienciaTecnologia)
    else if k == "CIENCIAS INTEGRADAS" then Some(CienciasIntegradas)
    else if k == "CIENCIAS SOCIALES" then Some(CienciasSociales)
    else if k == "CIUDADANIA Y CIVICA" then Some(Dpcc)
    else if k == "COMUNICACION" then Some(Comunicacion)
    else if k == "DESARROLLO PERSONAL" then Some(Dpcc)
    else if k == "DESARROLLO PERSONAL CIUDADANIA Y CIVICA" then Some(Dpcc)
    else if k == "DPCC" then Some(Dpcc)
    else if k == "TECNOLOGIA" then Some(Tecnologia)
    else if k == "INFORMATICA" then Some(Tecnologia)
    else if k == "INGLES" then Some(Ingles)
    else if k == "BIOLOGIA" then Some(BiologiaFisicaQuimica)
    else if k == "FISICA" then Some(BiologiaFisicaQuimica)
    else if k == "QUIMICA" then Some(BiologiaFisicaQuimica)
    else if k == "BIOLOGIA-FISICA-QUIMICA" then Some(BiologiaFisicaQuimica)
    else if k == "LECTURAS" then Some(Lecturas)
    else if k == "MATEMATICAS" then Some(Matematica)
    else if k == "MATEMATICA" then Some(Matematica)
    else if k == "PERSONAL SOCIAL" then Some(PersonalSocial)
    else if k == "PLAN LECTOR" then Some(PlanLector)
    else if k == "PREESCOLAR" then Some(Preescolar)
    else if k == "RAZONAMIENTO MATEMATICO" then Some(RazonamientoMatematico)
    else if k == "RAZONAMIENTO VERBAL" then Some(RazonamientoVerbal)
    else if k == "RELIGION" then Some(Religion)
    else if k == "TUTORIA Y ORIENTACION EDUCATIVA" then Some(Tutoria)
    else None
  }

  /** `_mapear_materia`: the subject of a cell, through its canonical key. */
  function MapearMateria(v: seq<char>): Option<Materia> {
    MateriaOfKey(MateriaKey(v))
  }

  /** Every subject the table yields has a suffix. */
  lemma TableSubjectsHaveSuffix(k: seq<char>)
    requires MateriaOfKey(k).Some?
    ensures Sufijo(MateriaOfKey(k).value) != []
  {
    var m := MateriaOfKey(k).value;
    assert m != CienciaTecnologiaPersonalSocial;
  }

  /** Plan Lector is shared in no level. */
  lemma PlanLectorNotShared(n: Nivel, k: seq<char>)
    requires k in Compartidas(n)
    ensures k != "PLAN LECTOR"
  {
  }

  /** Pre-school is shared only in Inicial. */
  lemma PreescolarOnlyInicial(n: Nivel, k: seq<char>)
    requires k in Compartidas(n) && k == "PREESCOLAR"
    ensures n == Inicial
  {
  }

  /** Inicial shares nothing but pre-school, English and technology. */
  lemma InicialSubjects(k: seq<char>)
    requires k in Compartidas(Inicial)
    ensures MateriaOfKey(k) in {Some(Preescolar), Some(Ingles), Some(Tecnologia)}
  {
  }

  /** `_orden_materia`: the subject's place in the output order. */
  function Orden(m: Materia): (r: nat)
    ensures r < 19
  {
    match m
    case CienciaTecnologia => 0
    case CienciaTecnologiaPersonalSocial => 1
    case CienciasIntegradas => 2
    case CienciasSociales => 3
    case BiologiaFisicaQuimica => 4
    case Comunicacion => 5
    case Dpcc => 6
    case Tecnologia => 7
    case Ingles => 8
    case Lecturas => 9
    case Matematica => 10
    case PersonalSocial => 11
    case PlanLector => 12
    case Preescolar => 13
    case RazonamientoMatematico => 14
    case RazonamientoVerbal => 15
    case Religion => 16
    case Tutoria => 17
    case Caligrafia => 18
  }

  /** The subject at each place of the output order. */
  function MateriaAt(i: nat): Materia
    requires i < 19
  {
    [CienciaTecnologia, CienciaTecnologiaPersonalSocial, CienciasIntegradas, CienciasSociales,
     BiologiaFisicaQuimica, Comunicacion, Dpcc, Tecnologia, Ingles, Lecturas, Matematica,
     PersonalSocial, PlanLector, Preescolar, RazonamientoMatematico, RazonamientoVerbal,
     Religion, Tutoria, Caligrafia][i]
  }

  /**
   * Every subject has a place of its own, so two records never tie on the
   * subject order with different subjects and the `Materias` column never
   * decides the order.
   */
  lemma OrdenRoundTrip(m: Materia)
    ensures MateriaAt(Orden(m)) == m
  {
  }

  lemma OrdenInjective(a: Materia, b: Materia)
    requires Orden(a) == Orden(b)
    ensures a == b
  {
    OrdenRoundTrip(a);
    OrdenRoundTrip(b);
  }

  // ------------------------------------------------------------ Tecpro letters

  /** `_letra_tecpro`: primary grades 1..6 are A..F, secondary grades 1..5 are G..K. */
  function LetraTecpro(grado: nat, nivel: Option<Nivel>): Option<char> {
    if nivel == Some(Primaria) then
      if grado == 1 then Some('A') else if grado == 2 then Some('B') else if grado == 3 then Some('C')
      else if grado == 4 then Some('D') else if grado == 5 then Some('E') else if grado == 6 then Some('F')
      else None
    else if nivel == Some(Secundaria) then
      if grado == 1 then Some('G') else if grado == 2 then Some('H') else if grado == 3 then Some('I')
      else if grado == 4 then Some('J') else if grado == 5 then Some('K')
      else None
    else None
  }

  /** The level and grade a Tecpro letter stands for. */
  function TecproGrade(c: char): Option<(Nivel, nat)> {
    if 'A' <= c <= 'F' then Some((Primaria, c as nat - 'A' as nat + 1))
    else if 'G' <= c <= 'K' then Some((Secundaria, c as nat - 'G' as nat + 1))
    else None
  }

  /**
   * A letter exists exactly for primary grades 1 to 6 and secondary grades 1
   * to 5, and it gives back its level and grade, so no two grades share one.
   */
  lemma LetraTecproMeaning(grado: nat, nivel: Option<Nivel>)
    ensures LetraTecpro(grado, nivel).Some? <==>
      (nivel == Some(Primaria) && 1 <= grado <= 6) || (nivel == Some(Secundaria) && 1 <= grado <= 5)
    ensures LetraTecpro(grado, nivel).Some? ==>
      TecproGrade(LetraTecpro(grado, nivel).value) == Some((nivel.value, grado))
  {
  }

  // ------------------------------------------------------------ class-name sections

  /** `_termina_con_seccion`: the name's last token, cleaned, reads `1PA` or `P1A`. */
  predicate TerminaConSeccion(nombre: seq<char>)
    requires ProfesoresClases.ParsableName(nombre)
  {
    nombre != [] &&
    var t := ProfesoresClases.CleanToken(nombre);
    t != [] && (ProfesoresClases.GradeFirstShape(t) || ProfesoresClases.LevelFirstShape(t))
  }

  /** The section test accepts exactly the names whose suffix the class catalog parses. */
  lemma SeccionMatchesCatalog(nombre: seq<char>)
    requires ProfesoresClases.ParsableName(nombre)
    ensures TerminaConSeccion(nombre) <==> ProfesoresClases.ParseClassSuffix(nombre).Some?
  {
  }

  /** A name given the section ` <grade><level>A` ends with a section. */
  lemma AppendedSectionDetected(nombre: seq<char>, grado: nat, nivel: Nivel)
    requires grado <= 99
    ensures ProfesoresClases.ParsableName(nombre + " " + NatToString(grado) + [CodigoNivel(nivel), 'A'])
    ensures TerminaConSeccion(nombre + " " + NatToString(grado) + [CodigoNivel(nivel), 'A'])
  {
    var s := ProfesoresClases.Suffix(grado, CodigoNivel(nivel), 'A');
    var title := nombre + " ";
    ProfesoresClases.ParseGradeFirstRoundTrip(title, s);
    assert title + ProfesoresClases.GradeFirstToken(s) == nombre + " " + NatToString(grado) + [CodigoNivel(nivel), 'A'];
    SeccionMatchesCatalog(nombre + " " + NatToString(grado) + [CodigoNivel(nivel), 'A']);
  }
}
