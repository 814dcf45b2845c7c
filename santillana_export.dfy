/**
 * The class-template export of santillana_format/processor.py: the group
 * list, the group letter a class name receives, the row rules of
 * `transformar` (state filter, Richmond products, Tecpro names, the
 * combined science subject, pre-school rows, the sharing rules and the
 * naming rules), one record per row and group, the de-duplication and the
 * final order, and the `process_excel` flow around them.
 */
module SantillanaExport {
  import opened Text
  import opened Sheet
  import opened RecordSort
  import opened SantillanaSubjects
  import Letters
  import ProfesoresClases

  // ------------------------------------------------------------ groups

  /** The `grupos` argument: absent, one text to split, or a list whose `None` items are skipped. */
  datatype GruposArg = NoGrupos | GruposText(text: seq<char>) | GruposList(items: seq<Option<seq<char>>>)

  /** The outcome of `_normalize_grupos`: the group letters, or the ValueError listing the bad tokens. */
  datatype Grupos = Grupos(letters: seq<char>) | InvalidGrupos(tokens: seq<seq<char>>)

  /** An argument Python reads as false: `None`, an empty text or an empty list. */
  predicate Falsy(a: GruposArg) {
    a.NoGrupos? || (a.GruposText? && a.text == []) || (a.GruposList? && a.items == [])
  }

  /** `[\s,]+`, the separators of a group text. */
  predicate GroupSeparator(c: char) {
    IsSpace(c) || c == ','
  }

  /**
   * The tokens the loop looks at. Splitting the stripped text on separator
   * runs can only add empty tokens at the ends, which the loop skips, so the
   * non-empty runs stand for the split.
   */
  function GrupoTokens(a: GruposArg): seq<seq<char>> {
    match a
    case NoGrupos => []
    case GruposText(s) => Tokens(s, GroupSeparator)
    case GruposList(items) => Somes(items)
  }

  /** `_normalize_grupos`: group A alone when nothing is given or no letter is named. */
  function NormalizeGrupos(a: GruposArg): Grupos {
    if Falsy(a) then Grupos(['A'])
    else
      var s := Letters.ScanAll(GrupoTokens(a));
      if s.invalid != [] then InvalidGrupos(s.invalid)
      else if s.letters == [] then Grupos(['A'])
      else Grupos(s.letters)
  }

  method ParseGrupos(a: GruposArg) returns (r: Grupos)
    ensures r == NormalizeGrupos(a)
  {
    if Falsy(a) {
      return Grupos(['A']);
    }
    var letras, invalid := Letters.ScanTokens(GrupoTokens(a));
    if invalid != [] {
      return InvalidGrupos(invalid);
    }
    if letras == [] {
      return Grupos(['A']);
    }
    return Grupos(letras);
  }

  /** Some token names a group letter. */
  predicate NamesSome(a: GruposArg) {
    exists t, c :: t in GrupoTokens(a) && Letters.Names(t, c)
  }

  /**
   * The list of groups is never empty and never repeats a letter; its
   * letters are upper-case and are exactly those the tokens name, or A
   * alone when none is named. The error reports exactly the tokens that are
   * neither blank nor a single letter, and there is one iff such a token
   * exists.
   */
  lemma NormalizeGruposMeaning(a: GruposArg)
    ensures NormalizeGrupos(a).InvalidGrupos? <==>
      !Falsy(a) && exists t :: t in GrupoTokens(a) && Letters.Invalid(t)
    ensures NormalizeGrupos(a).InvalidGrupos? ==>
      forall t :: t in NormalizeGrupos(a).tokens <==> t in GrupoTokens(a) && Letters.Invalid(t)
    ensures NormalizeGrupos(a).Grupos? ==>
      var ls := NormalizeGrupos(a).letters;
      ls != [] &&
      (forall i :: 0 <= i < |ls| ==> IsUpper(ls[i])) &&
      (forall i, j :: 0 <= i < j < |ls| ==> ls[i] != ls[j]) &&
      (Falsy(a) || !NamesSome(a) ==> ls == ['A']) &&
      (!Falsy(a) && NamesSome(a) ==> forall c :: c in ls <==> exists t :: t in GrupoTokens(a) && Letters.Names(t, c))
  {
    var ts := GrupoTokens(a);
    Letters.ScanLetters(ts);
    Letters.ScanInvalid(ts);
    var s := Letters.ScanAll(ts);
    if s.invalid != [] {
      Letters.HeadIn(s.invalid);
    }
    if !Falsy(a) && NamesSome(a) {
      var t, c :| t in ts && Letters.Names(t, c);
      assert c in s.letters;
    }
    if !NamesSome(a) && s.letters != [] {
      Letters.HeadIn(s.letters);
      assert false;
    }
  }

  // ------------------------------------------------------------ group names

  predicate EndsWith(s: seq<char>, p: seq<char>) {
    |p| <= |s| && s[|s| - |p|..] == p
  }

  /** `f"{grado_num}{nivel_codigo}{grupo}"`. */
  function SectionSuffix(gradoNum: nat, codigo: seq<char>, g: char): seq<char> {
    NatToString(gradoNum) + codigo + [g]
  }

  /**
   * `_apply_grupo`: group A keeps the name; a name ending in its own
   * section `<grade><level>A` gets the group letter in place of that A;
   * otherwise the letter is appended only when there are several groups.
   */
  function ApplyGrupo(nombre: seq<char>, g: char, gradoNum: nat, codigo: seq<char>, multi: bool): seq<char> {
    if g == 'A' then nombre
    else if gradoNum != 0 && codigo != [] && EndsWith(nombre, SectionSuffix(gradoNum, codigo, 'A')) then
      nombre[..|nombre| - |SectionSuffix(gradoNum, codigo, 'A')|] + SectionSuffix(gradoNum, codigo, g)
    else if multi then nombre + " " + [g]
    else nombre
  }

  /**
   * Only the group letter changes a name: a name ending in its section has
   * its final A replaced and keeps everything before it; any other name is
   * kept, with ` <group>` after it when there are several groups.
   */
  lemma ApplyGrupoMeaning(nombre: seq<char>, g: char, gradoNum: nat, codigo: seq<char>, multi: bool)
    ensures var r := ApplyGrupo(nombre, g, gradoNum, codigo, multi);
      (gradoNum != 0 && codigo != [] && EndsWith(nombre, SectionSuffix(gradoNum, codigo, 'A')) ==>
        |r| == |nombre| && r[..|r| - 1] == nombre[..|nombre| - 1] && r[|r| - 1] == g) &&
      (!(gradoNum != 0 && codigo != [] && EndsWith(nombre, SectionSuffix(gradoNum, codigo, 'A'))) ==>
        r == (if multi && g != 'A' then nombre + " " + [g] else nombre))
  {
    var r := ApplyGrupo(nombre, g, gradoNum, codigo, multi);
    if gradoNum != 0 && codigo != [] && EndsWith(nombre, SectionSuffix(gradoNum, codigo, 'A')) && g != 'A' {
      var k := |nombre| - |SectionSuffix(gradoNum, codigo, 'A')|;
      var p := NatToString(gradoNum) + codigo;
      assert SectionSuffix(gradoNum, codigo, 'A') == p + ['A'];
      assert SectionSuffix(gradoNum, codigo, g) == p + [g];
      assert nombre[k..] == p + ['A'];
      assert nombre[..|nombre| - 1] == nombre[..k] + p by {
        assert nombre[..|nombre| - 1] == nombre[..k] + nombre[k..][..|p|];
      }
    }
  }

  /**
   * With several groups, different groups of one row get different class
   * names, so the class keys of a row never collide.
   */
  lemma ApplyGrupoInjective(nombre: seq<char>, g1: char, g2: char, gradoNum: nat, codigo: seq<char>)
    requires g1 != g2
    ensures ApplyGrupo(nombre, g1, gradoNum, codigo, true) != ApplyGrupo(nombre, g2, gradoNum, codigo, true)
  {
    var r1 := ApplyGrupo(nombre, g1, gradoNum, codigo, true);
    var r2 := ApplyGrupo(nombre, g2, gradoNum, codigo, true);
    ApplyGrupoMeaning(nombre, g1, gradoNum, codigo, true);
    ApplyGrupoMeaning(nombre, g2, gradoNum, codigo, true);
    if gradoNum != 0 && codigo != [] && EndsWith(nombre, SectionSuffix(gradoNum, codigo, 'A')) {
      assert nombre[|nombre| - 1] == 'A' by {
        assert SectionSuffix(gradoNum, codigo, 'A')[|SectionSuffix(gradoNum, codigo, 'A')| - 1] == 'A';
      }
      assert r1[|r1| - 1] == g1 && r2[|r2| - 1] == g2;
    } else if g1 != 'A' && g2 != 'A' {
      assert r1[|r1| - 1] == g1 && r2[|r2| - 1] == g2;
    } else {
      assert |r1| != |r2|;
    }
  }

  /**
   * A class named `<title><grade><level>A`, with a title ending in a blank,
   * is read back by the class catalog of profesores_clases.py as that grade
   * and level in the section of its group, whatever the group.
   */
  lemma GroupReadBack(title: seq<char>, gradoNum: nat, nivel: Nivel, g: char, multi: bool)
    requires title == [] || IsSpace(title[|title| - 1])
    requires 1 <= gradoNum <= 99 && IsUpper(g)
    ensures var nombre := title + SectionSuffix(gradoNum, [CodigoNivel(nivel)], 'A');
      var r := ApplyGrupo(nombre, g, gradoNum, [CodigoNivel(nivel)], multi);
      ProfesoresClases.ParsableName(r) &&
      ProfesoresClases.ParseClassSuffix(r) == Some(ProfesoresClases.Suffix(gradoNum, CodigoNivel(nivel), g))
  {
    var c := [CodigoNivel(nivel)];
    var nombre := title + SectionSuffix(gradoNum, c, 'A');
    var r := ApplyGrupo(nombre, g, gradoNum, c, multi);
    var s := ProfesoresClases.Suffix(gradoNum, CodigoNivel(nivel), g);
    assert EndsWith(nombre, SectionSuffix(gradoNum, c, 'A')) by {
      assert nombre[|nombre| - |SectionSuffix(gradoNum, c, 'A')|..] == SectionSuffix(gradoNum, c, 'A');
    }
    assert nombre[..|nombre| - |SectionSuffix(gradoNum, c, 'A')|] == title;
    assert SectionSuffix(gradoNum, c, g) == ProfesoresClases.GradeFirstToken(s);
    assert r == title + ProfesoresClases.GradeFirstToken(s);
    ProfesoresClases.ParseGradeFirstRoundTrip(title, s);
  }

  // ------------------------------------------------------------ fill-down

  /** The last non-empty value, or the empty text when there is none. */
  function LastFilled(vs: seq<seq<char>>): seq<char> {
    if vs == [] then []
    else if vs[|vs| - 1] != [] then vs[|vs| - 1]
    else LastFilled(vs[..|vs| - 1])
  }

  /** `replace("", pd.NA).ffill().fillna("")` on one column. */
  function FillDown(vs: seq<seq<char>>): (r: seq<seq<char>>)
    ensures |r| == |vs|
  {
    if vs == [] then []
    else
      var p := FillDown(vs[..|vs| - 1]);
      p + [if vs[|vs| - 1] != [] then vs[|vs| - 1] else if p == [] then [] else p[|p| - 1]]
  }

  /**
   * Each cell of the filled column holds the last non-empty cell at or
   * above it: a non-empty cell is kept, an empty one takes the nearest
   * non-empty cell above, and stays empty when there is none.
   */
  lemma {:induction false} FillDownMeaning(vs: seq<seq<char>>)
    ensures forall i :: 0 <= i < |vs| ==> FillDown(vs)[i] == LastFilled(vs[..i + 1])
  {
    if vs != [] {
      var init := vs[..|vs| - 1];
      FillDownMeaning(init);
      forall i | 0 <= i < |init|
        ensures FillDown(vs)[i] == LastFilled(vs[..i + 1])
      {
        assert init[..i + 1] == vs[..i + 1];
      }
      assert vs[..|vs|] == vs;
      if init != [] {
        assert init[..|init|] == init;
      }
    }
  }

  /** The cells of one column, empty where the row has none. */
  function ColumnValues(t: Table, col: seq<char>): (vs: seq<seq<char>>)
    ensures |vs| == |t.rows|
  {
    seq(|t.rows|, i requires 0 <= i < |t.rows| => Value(t.rows[i], col))
  }

  // ------------------------------------------------------------ rows

  /** One row's cells after `fillna("")` and the fill-down, before `strip`; the state is empty without its column. */
  datatype Fila = Fila(plataforma: seq<char>, asignatura: seq<char>, nivel: seq<char>, grado: seq<char>,
                       producto: seq<char>, razon: seq<char>)

  /** The rows of the working table: level, grade, subject and platform filled down, the product as it stands. */
  function Filas(t: Table): (fs: seq<Fila>)
    ensures |fs| == |t.rows|
  {
    var plat := FillDown(ColumnValues(t, "Plataforma"));
    var asig := FillDown(ColumnValues(t, "Asignatura Producto"));
    var niv := FillDown(ColumnValues(t, "Nivel Educativo"));
    var gra := FillDown(ColumnValues(t, "Grado"));
    seq(|t.rows|, i requires 0 <= i < |t.rows| =>
      Fila(plat[i], asig[i], niv[i], gra[i], Value(t.rows[i], "Producto"),
        if "Razon Estado" in t.columns then Value(t.rows[i], "Razon Estado") else ""))
  }

  /** What a row's level, grade and subject read as; `sufijo` is the subject table's suffix, empty when unknown. */
  datatype Lectura = Lectura(nivel: Option<Nivel>, grado: seq<char>, gradoNum: nat, materia: Option<Materia>,
                             sufijo: seq<char>, key: seq<char>)

  function Leer(asignatura: seq<char>, nivel: seq<char>, grado: seq<char>): (r: Lectura)
    ensures r.key == MateriaKey(asignatura) && r.materia == MateriaOfKey(r.key)
    ensures r.gradoNum <= 6 && (r.grado == [] <==> r.gradoNum == 0)
  {
    GradesWellFormed(grado);
    var g := LenientGrade(grado);
    var key := MateriaKey(asignatura);
    var m := MateriaOfKey(key);
    Lectura(MapearNivel(nivel), g.0, g.1, m, if m.Some? then Sufijo(m.value) else [], key)
  }

  predicate StartsWith(s: seq<char>, p: seq<char>) {
    |p| <= |s| && s[..|p|] == p
  }

  /** The product prefix of access codes. */
  const Acceso: seq<char> := "CODIGO DE ACCESO AL SISTEMA"

  /** The product prefix of Tecpro access codes. */
  const AccesoTecpro: seq<char> := "CODIGO DE ACCESO AL SISTEMA TECPRO"

  /** The state filter: a validated or blank state, and a platform other than RLP. */
  predicate EstadoAdmitido(razon: seq<char>, plataforma: seq<char>) {
    (razon == "Validado" || razon == "") && NormalizeKey(plataforma) != "RLP"
  }

  /** On a Richmond platform only English or an access-code product is kept. */
  predicate RichmondAdmitido(plataforma: seq<char>, key: seq<char>, prodUpper: seq<char>) {
    !IsInfix("RICHMOND", NormalizeKey(plataforma)) || key == "INGLES" || StartsWith(prodUpper, Acceso)
  }

  /** A Tecpro access code for a technology class becomes `TECPRO [MAX] NIVEL <letter>` when the grade has a letter. */
  function TecproProducto(l: Lectura, producto: seq<char>, prodUpper: seq<char>): (r: seq<char>)
    ensures (producto == [] || !IsSpace(producto[0])) ==> r == [] || !IsSpace(r[0])
  {
    if l.materia == Some(Tecnologia) && producto != [] && StartsWith(prodUpper, AccesoTecpro) then
      match LetraTecpro(l.gradoNum, l.nivel)
      case Some(c) => (if l.nivel == Some(Secundaria) then "TECPRO MAX" else "TECPRO") + " NIVEL " + [c]
      case None => producto
    else producto
  }

  /** Ciencias Integradas in grades 1 and 2 of primary is named Ciencia y Tecnología - Personal Social; the suffix stays. */
  function RenombrarCiencias(l: Lectura): Lectura {
    if l.materia == Some(CienciasIntegradas) && l.nivel == Some(Primaria) && (l.gradoNum == 1 || l.gradoNum == 2)
    then l.(materia := Some(CienciaTecnologiaPersonalSocial))
    else l
  }

  /** `mapa_inicial`, with grade 1 for any other word. */
  function MapaInicial(clave: seq<char>): (n: nat)
    ensures 1 <= n <= 5
  {
    if clave == "DOS" || clave == "2" then 2
    else if clave == "TRES" || clave == "3" then 3
    else if clave == "CUATRO" || clave == "4" then 4
    else if clave == "CINCO" || clave == "5" then 5
    else 1
  }

  /** `nombres_inicial`. */
  function NombreInicial(n: nat): (r: seq<char>)
    requires 1 <= n <= 5
    ensures r != []
  {
    if n == 1 then "1 año" else NatToString(n) + " años"
  }

  /** The first word of a text, empty when it has none. */
  function FirstWord(s: seq<char>): seq<char> {
    var ts := Tokens(s, IsSpace);
    if ts == [] then [] else ts[0]
  }

  /**
   * The pre-school block: a pre-school row needs an access-code or Kurmi
   * product; a missing grade number comes from the grade's first word, the
   * grade is named after the years, and a missing level is Inicial.
   */
  function AjustarPreescolar(l: Lectura, prodUpper: seq<char>, gradoVal: seq<char>): Option<Lectura> {
    if l.materia != Some(Preescolar) then Some(l)
    else if !(StartsWith(prodUpper, Acceso) || IsInfix("KURMI", prodUpper)) then None
    else
      var n := if l.gradoNum != 0 then l.gradoNum else MapaInicial(FirstWord(NormalizeKey(gradoVal)));
      var grado := if 1 <= n <= 5 then NombreInicial(n)
        else if l.grado != [] then l.grado
        else if gradoVal != [] then gradoVal
        else "Inicial";
      Some(l.(gradoNum := n, grado := grado, nivel := if l.nivel.None? then Some(Inicial) else l.nivel))
  }

  // ------------------------------------------------------------ class names

  /** The first index at or after `k` whose character is not in the class `p`. */
  function Skip(u: seq<char>, k: nat, p: char -> bool): (r: nat)
    requires k <= |u|
    ensures k <= r <= |u| && (r < |u| ==> !p(u[r]))
    ensures forall i :: k <= i < r ==> p(u[i])
    decreases |u| - k
  {
    if k == |u| || !p(u[k]) then k else Skip(u, k + 1, p)
  }

  /** `KURMI` occurs at `i` and is followed by blanks and at least one digit; the match ends after the digits. */
  function KurmiEnd(u: seq<char>, i: nat): (r: Option<nat>)
    requires i <= |u|
    ensures r.Some? ==> i + 5 < r.value <= |u|
  {
    if !OccursAt("KURMI", u, i) then None
    else
      var d := Skip(u, i + 5, IsSpace);
      if d < |u| && IsDigit(u[d]) then Some(Skip(u, d, IsDigit)) else None
  }

  /** `re.search(r"KURMI\s*\d+", ...)` on upper-cased text, from position `i`: the first match's bounds. */
  function KurmiFrom(u: seq<char>, i: nat): (r: Option<(nat, nat)>)
    requires i <= |u|
    ensures r.Some? ==> i <= r.value.0 <= |u| && KurmiEnd(u, r.value.0) == Some(r.value.1)
    ensures r.Some? ==> forall k :: i <= k < r.value.0 ==> KurmiEnd(u, k).None?
    ensures r.None? ==> forall k :: i <= k <= |u| ==> KurmiEnd(u, k).None?
    decreases |u| - i
  {
    match KurmiEnd(u, i)
    case Some(e) => Some((i, e))
    case None => if i == |u| then None else KurmiFrom(u, i + 1)
  }

  /** A Kurmi match reads `KURMI`, then blanks, then digits, and ends on a digit. */
  lemma KurmiMatchShape(u: seq<char>)
    requires KurmiFrom(u, 0).Some?
    ensures var (i, e) := KurmiFrom(u, 0).value;
      i + 5 < e <= |u| && u[i..i + 5] == "KURMI" && IsDigit(u[e - 1]) &&
      forall k :: i + 5 <= k < e ==> IsSpace(u[k]) || IsDigit(u[k])
  {
    var (i, e) := KurmiFrom(u, 0).value;
    var d := Skip(u, i + 5, IsSpace);
    assert e == Skip(u, d, IsDigit);
  }

  /** The text before the first `(` (`split("(", 1)[0]`). */
  function BeforeParen(s: seq<char>): (r: seq<char>)
    ensures r <= s && '(' !in r
  {
    if s == [] || s[0] == '(' then [] else [s[0]] + BeforeParen(s[1..])
  }

  /**
   * The name of a pre-school class: the product, or `Kurmi (1IA)` without
   * one; for a Kurmi product the `KURMI <n>` it names, or else its text
   * before any parenthesis, upper-cased.
   */
  function NombrePreescolar(producto: seq<char>, prodUpper: seq<char>): seq<char> {
    var base := if producto != [] then producto else "Kurmi (1IA)";
    if !IsInfix("KURMI", prodUpper) then base
    else
      match KurmiFrom(prodUpper, 0)
      case Some((i, e)) => prodUpper[i..e]
      case None =>
        var u := Upper(Strip(BeforeParen(producto)));
        if u != [] then u else base
  }

  /**
   * The naming rules of `transformar`, given the level and subject the row
   * was found to have: pre-school classes by their product; Plan Lector
   * with a Loqueleo product as `Loqueleo <grade><level>A`; technology
   * classes by their product, with the section appended to a Tecpro product
   * that does not end in one; any other subject as
   * `<subject> <grade><level>A`.
   */
  function NombreClase(l: Lectura, producto: seq<char>, prodUpper: seq<char>): seq<char>
    requires l.nivel.Some? && l.materia.Some?
    requires producto == [] || !IsSpace(producto[0])
  {
    var c := [CodigoNivel(l.nivel.value)];
    if l.materia == Some(Preescolar) then NombrePreescolar(producto, prodUpper)
    else if l.materia == Some(PlanLector) && l.gradoNum != 0 && (IsInfix("LQL", prodUpper) || IsInfix("LOQUELEO", prodUpper)) then
      "Loqueleo " + SectionSuffix(l.gradoNum, c, 'A')
    else if l.materia == Some(Tecnologia) && producto != [] then
      if IsInfix("TECPRO", prodUpper) && l.gradoNum != 0 && !TerminaConSeccion(producto) then
        producto + " " + SectionSuffix(l.gradoNum, c, 'A')
      else producto
    else MateriaName(l.materia.value) + " " + SectionSuffix(l.gradoNum, c, 'A')
  }

  // ------------------------------------------------------------ the row rules

  /** The class a row yields. */
  datatype Clase = Clase(nivel: Nivel, grado: seq<char>, gradoNum: nat, materia: Materia, nombre: seq<char>)

  /**
   * The body of the row loop of `transformar`: the state and platform
   * filter, the Richmond filter, the Tecpro product, the combined science
   * subject, the pre-school block, the sharing rules and the final check
   * that level, grade, subject and suffix are all known. The class name is
   * only built for a row that passes the final check; building it for the
   * others, as the loop does, has no effect.
   */
  function RowClass(f: Fila): Option<Clase> {
    var plataforma := Strip(f.plataforma);
    var producto := Strip(f.producto);
    var prodUpper := Upper(producto);
    var grado := Strip(f.grado);
    var l := Leer(Strip(f.asignatura), Strip(f.nivel), grado);
    if !EstadoAdmitido(Strip(f.razon), plataforma) || !RichmondAdmitido(plataforma, l.key, prodUpper) then None
    else Armar(l, producto, prodUpper, grado)
  }

  /** The class of a row that passed the filters: the rules, then the name. */
  function Armar(l: Lectura, producto: seq<char>, prodUpper: seq<char>, grado: seq<char>): Option<Clase>
    requires producto == [] || !IsSpace(producto[0])
  {
    match Reglas(l, prodUpper, grado)
    case None => None
    case Some(l2) =>
      Some(Clase(l2.nivel.value, l2.grado, l2.gradoNum, l2.materia.value,
        NombreClase(l2, TecproProducto(l, producto, prodUpper), prodUpper)))
  }

  /**
   * The rules after the filters: the combined science subject, the
   * pre-school block, the sharing rules and the final check that level,
   * grade, subject and suffix are all known.
   */
  function Reglas(l: Lectura, prodUpper: seq<char>, grado: seq<char>): (r: Option<Lectura>)
    ensures r.Some? ==> r.value.nivel.Some? && r.value.materia.Some?
  {
    match AjustarPreescolar(RenombrarCiencias(l), prodUpper, grado)
    case None => None
    case Some(l2) =>
      if !MateriaPermitida(l2.nivel, l2.key, l2.gradoNum) then None
      else if l2.grado == [] || l2.gradoNum == 0 || l2.materia.None? || l2.sufijo == [] then None
      else Some(l2)
  }

  /**
   * What every class the rules let through satisfies: a grade of 1 to 6
   * with a name, never plain Ciencias Integradas (primary grades 1 and 2
   * are renamed and no other grade may share it) and never Plan Lector
   * (no level shares it); pre-school classes are exactly the Inicial ones
   * that are not English or technology.
   */
  predicate ClaseAdmitida(c: Clase) {
    1 <= c.gradoNum <= 6 && c.grado != [] &&
    c.materia != CienciasIntegradas && c.materia != PlanLector &&
    (c.materia == CienciaTecnologiaPersonalSocial ==> c.nivel == Primaria && c.gradoNum <= 2) &&
    (c.materia == Preescolar ==> c.nivel == Inicial) &&
    (c.nivel == Inicial ==> c.materia in {Preescolar, Ingles, Tecnologia})
  }

  /**
   * A row yields a class only when its state is validated or blank, its
   * platform is not RLP, a Richmond platform carries English or an access
   * code, and its level shares its subject in its grade; the class then
   * satisfies `ClaseAdmitida`.
   */
  lemma RowClassMeaning(f: Fila)
    requires RowClass(f).Some?
    ensures var plataforma := Strip(f.plataforma);
      var key := MateriaKey(Strip(f.asignatura));
      var c := RowClass(f).value;
      EstadoAdmitido(Strip(f.razon), plataforma) &&
      RichmondAdmitido(plataforma, key, Upper(Strip(f.producto))) &&
      MateriaPermitida(Some(c.nivel), key, c.gradoNum) &&
      ClaseAdmitida(c)
  {
    var grado := Strip(f.grado);
    var prodUpper := Upper(Strip(f.producto));
    var l := Leer(Strip(f.asignatura), Strip(f.nivel), grado);
    ReglasMeaning(l, prodUpper, grado);
  }

  /** The rules keep the subject key and let through only a shared subject whose class is admitted. */
  lemma ReglasMeaning(l: Lectura, prodUpper: seq<char>, grado: seq<char>)
    requires l.materia == MateriaOfKey(l.key) && l.gradoNum <= 6
    requires Reglas(l, prodUpper, grado).Some?
    ensures var l2 := Reglas(l, prodUpper, grado).value;
      l2.key == l.key && MateriaPermitida(l2.nivel, l.key, l2.gradoNum) &&
      ClaseAdmitida(Clase(l2.nivel.value, l2.grado, l2.gradoNum, l2.materia.value, []))
  {
    var l2 := Reglas(l, prodUpper, grado).value;
    var n := l2.nivel.value;
    PlanLectorNotShared(n, l.key);
    if l2.materia == Some(Preescolar) {
      PreescolarOnlyInicial(n, l.key);
    }
    if n == Inicial {
      InicialSubjects(l.key);
    }
    MateriaPermitidaMeaning(l2.nivel, l.key, l2.gradoNum, "CIENCIAS INTEGRADAS", "CIENCIAS SOCIALES");
  }

  /**
   * For a subject other than pre-school the rules come down to a known
   * level, grade and subject and the sharing rules, and the class carries
   * what was read, with Ciencias Integradas of primary grades 1 and 2
   * renamed.
   */
  lemma ArmarOrdinary(l: Lectura, producto: seq<char>, prodUpper: seq<char>, grado: seq<char>)
    requires producto == [] || !IsSpace(producto[0])
    requires l.materia == MateriaOfKey(l.key) && l.materia != Some(Preescolar)
    requires l.grado == [] <==> l.gradoNum == 0
    requires l.sufijo == (if l.materia.Some? then Sufijo(l.materia.value) else [])
    ensures (Armar(l, producto, prodUpper, grado).Some? <==>
      l.gradoNum != 0 && l.materia.Some? && l.nivel.Some? && MateriaPermitida(l.nivel, l.key, l.gradoNum))
    ensures Armar(l, producto, prodUpper, grado).Some? ==>
      var c := Armar(l, producto, prodUpper, grado).value;
      c.nivel == l.nivel.value && c.grado == l.grado && c.gradoNum == l.gradoNum &&
      c.materia == (if l.materia == Some(CienciasIntegradas) && l.nivel == Some(Primaria) && l.gradoNum <= 2
                    then CienciaTecnologiaPersonalSocial else l.materia.value)
  {
    if l.materia.Some? {
      TableSubjectsHaveSuffix(l.key);
    }
    if l.nivel.None? {
      assert !MateriaPermitida(l.nivel, l.key, l.gradoNum);
    }
  }

  /**
   * For a subject other than pre-school a row yields a class iff it passes
   * the state, platform and Richmond filters, its level, grade and subject
   * are known and its level shares the subject in its grade.
   */
  lemma RowClassOrdinary(f: Fila)
    requires MapearMateria(Strip(f.asignatura)) != Some(Preescolar)
    ensures var plataforma := Strip(f.plataforma);
      var key := MateriaKey(Strip(f.asignatura));
      var nivel := MapearNivel(Strip(f.nivel));
      var g := LenientGrade(Strip(f.grado));
      var m := MapearMateria(Strip(f.asignatura));
      (RowClass(f).Some? <==>
        EstadoAdmitido(Strip(f.razon), plataforma) && RichmondAdmitido(plataforma, key, Upper(Strip(f.producto))) &&
        g.1 != 0 && m.Some? && nivel.Some? && MateriaPermitida(nivel, key, g.1)) &&
      (RowClass(f).Some? ==>
        var c := RowClass(f).value;
        c.nivel == nivel.value && c.grado == g.0 && c.gradoNum == g.1 &&
        c.materia == (if m == Some(CienciasIntegradas) && nivel == Some(Primaria) && g.1 <= 2
                      then CienciaTecnologiaPersonalSocial else m.value))
  {
    var producto := Strip(f.producto);
    var grado := Strip(f.grado);
    var l := Leer(Strip(f.asignatura), Strip(f.nivel), grado);
    ArmarOrdinary(l, producto, Upper(producto), grado);
  }

  /** Apart from pre-school and technology, a class is named `<subject> <grade><level>A`. */
  lemma ArmarName(l: Lectura, producto: seq<char>, prodUpper: seq<char>, grado: seq<char>)
    requires producto == [] || !IsSpace(producto[0])
    requires l.materia == MateriaOfKey(l.key) && l.gradoNum <= 6
    requires Armar(l, producto, prodUpper, grado).Some?
    requires Armar(l, producto, prodUpper, grado).value.materia !in {Preescolar, Tecnologia}
    ensures var c := Armar(l, producto, prodUpper, grado).value;
      c.nombre == MateriaName(c.materia) + " " + SectionSuffix(c.gradoNum, [CodigoNivel(c.nivel)], 'A')
  {
    ReglasMeaning(l, prodUpper, grado);
  }

  /**
   * A technology class with a Tecpro product is named after its product,
   * with a section the class catalog recognises.
   */
  lemma ArmarTecpro(l: Lectura, producto: seq<char>, prodUpper: seq<char>, grado: seq<char>)
    requires producto == [] || !IsSpace(producto[0])
    requires l.materia == MateriaOfKey(l.key) && l.gradoNum <= 6
    requires Armar(l, producto, prodUpper, grado).Some?
    requires Armar(l, producto, prodUpper, grado).value.materia == Tecnologia
    requires prodUpper == Upper(producto) && IsInfix("TECPRO", prodUpper)
    ensures ProfesoresClases.ParsableName(Armar(l, producto, prodUpper, grado).value.nombre)
    ensures TerminaConSeccion(Armar(l, producto, prodUpper, grado).value.nombre)
  {
    ReglasMeaning(l, prodUpper, grado);
    var l2 := Reglas(l, prodUpper, grado).value;
    assert producto != [];
    TecproNombre(l2, TecproProducto(l, producto, prodUpper), prodUpper);
  }

  /** The technology branch of the naming rules, for a non-blank Tecpro product. */
  lemma TecproNombre(l2: Lectura, p: seq<char>, prodUpper: seq<char>)
    requires l2.nivel.Some? && l2.materia == Some(Tecnologia) && 1 <= l2.gradoNum <= 99
    requires p != [] && !IsSpace(p[0]) && IsInfix("TECPRO", prodUpper)
    ensures ProfesoresClases.ParsableName(NombreClase(l2, p, prodUpper))
    ensures TerminaConSeccion(NombreClase(l2, p, prodUpper))
  {
    var c := [CodigoNivel(l2.nivel.value)];
    var nombre := NombreClase(l2, p, prodUpper);
    assert ProfesoresClases.ParsableName(p);
    if TerminaConSeccion(p) {
      assert nombre == p;
    } else {
      var ns, cn := NatToString(l2.gradoNum), CodigoNivel(l2.nivel.value);
      assert nombre == p + " " + SectionSuffix(l2.gradoNum, c, 'A');
      assert SectionSuffix(l2.gradoNum, c, 'A') == ns + [cn, 'A'];
      assert nombre == p + " " + ns + [cn, 'A'];
      AppendedSectionDetected(p, l2.gradoNum, l2.nivel.value);
    }
  }

  // ------------------------------------------------------------ records

  /**
   * One output row: `Nivel`, `Grado`, the group letter of `Grupo`, the
   * class name that is both `Nombre de Clase` and `Clase Clave`,
   * `Materias`, and the grade number and group position the order uses;
   * `Alias Clase` is always empty.
   */
  datatype Registro = Registro(nivel: Nivel, grado: seq<char>, grupo: char, nombre: seq<char>, materia: Materia,
                               gradoNum: nat, ordenGrupo: nat)

  /** The record of a class in the `j`-th group. */
  function GroupRecord(c: Clase, gs: seq<char>, j: nat): Registro
    requires j < |gs|
  {
    Registro(c.nivel, c.grado, gs[j], ApplyGrupo(c.nombre, gs[j], c.gradoNum, [CodigoNivel(c.nivel)], |gs| > 1),
      c.materia, c.gradoNum, j + 1)
  }

  /** The records of a class, one per group, in group order. */
  function GroupRecords(c: Clase, gs: seq<char>): (rs: seq<Registro>)
    ensures |rs| == |gs| && forall j :: 0 <= j < |gs| ==> rs[j] == GroupRecord(c, gs, j)
  {
    seq(|gs|, j requires 0 <= j < |gs| => GroupRecord(c, gs, j))
  }

  /** What each row yields. */
  function RowClasses(fs: seq<Fila>): (os: seq<Option<Clase>>)
    ensures |os| == |fs| && forall i :: 0 <= i < |fs| ==> os[i] == RowClass(fs[i])
  {
    seq(|fs|, i requires 0 <= i < |fs| => RowClass(fs[i]))
  }

  /** The classes of the rows that pass, in row order. */
  function Clases(fs: seq<Fila>): seq<Clase> {
    Somes(RowClasses(fs))
  }

  /** `registros`: the records of the classes, class by class. */
  function Registros(cs: seq<Clase>, gs: seq<char>): seq<Registro> {
    if cs == [] then [] else Registros(cs[..|cs| - 1], gs) + GroupRecords(cs[|cs| - 1], gs)
  }

  /** The loop over the groups for one class. */
  method AppendGroupRecords(registros: seq<Registro>, c: Clase, gs: seq<char>) returns (r: seq<Registro>)
    ensures r == registros + GroupRecords(c, gs)
  {
    r := registros;
    for j := 0 to |gs|
      invariant r == registros + GroupRecords(c, gs)[..j]
    {
      assert GroupRecords(c, gs)[..j + 1] == GroupRecords(c, gs)[..j] + [GroupRecord(c, gs, j)];
      r := r + [GroupRecord(c, gs, j)];
    }
    assert GroupRecords(c, gs)[..|gs|] == GroupRecords(c, gs);
  }

  /** The row loop of `transformar`, over what each row yields: a passing row's records are appended, group by group. */
  method CollectRegistros(os: seq<Option<Clase>>, gs: seq<char>) returns (registros: seq<Registro>)
    ensures registros == Registros(Somes(os), gs)
  {
    registros := [];
    for k := 0 to |os|
      invariant registros == Registros(Somes(os[..k]), gs)
    {
      assert os[..k + 1][..k] == os[..k];
      ghost var prev := Somes(os[..k]);
      match os[k] {
        case None =>
          assert Somes(os[..k + 1]) == prev;
        case Some(c) =>
          assert Somes(os[..k + 1]) == prev + [c];
          RegistrosSnoc(prev, c, gs);
          registros := AppendGroupRecords(registros, c, gs);
      }
    }
    assert os[..|os|] == os;
  }

  lemma RegistrosSnoc(cs: seq<Clase>, c: Clase, gs: seq<char>)
    ensures Registros(cs + [c], gs) == Registros(cs, gs) + GroupRecords(c, gs)
  {
    assert (cs + [c])[..|cs|] == cs;
  }

  /** Every class yields one record per group. */
  lemma {:induction false} RegistrosCount(cs: seq<Clase>, gs: seq<char>)
    ensures |Registros(cs, gs)| == |cs| * |gs|
  {
    if cs != [] {
      RegistrosCount(cs[..|cs| - 1], gs);
      assert |Registros(cs, gs)| == (|cs| - 1) * |gs| + |gs|;
    }
  }

  /** A record is produced iff it is the record of some class in some group. */
  lemma {:induction false} RegistrosMeaning(cs: seq<Clase>, gs: seq<char>)
    ensures forall r :: r in Registros(cs, gs) <==> exists c, j :: c in cs && 0 <= j < |gs| && r == GroupRecord(c, gs, j)
  {
    if cs != [] {
      var init, last := cs[..|cs| - 1], cs[|cs| - 1];
      RegistrosMeaning(init, gs);
      assert cs == init + [last];
      forall r
        ensures r in Registros(cs, gs) <==> exists c, j :: c in cs && 0 <= j < |gs| && r == GroupRecord(c, gs, j)
      {
        if r in GroupRecords(last, gs) {
          var j :| 0 <= j < |gs| && GroupRecords(last, gs)[j] == r;
          assert last in cs && r == GroupRecord(last, gs, j);
        }
        if exists c, j :: c in cs && 0 <= j < |gs| && r == GroupRecord(c, gs, j) {
          var c, j :| c in cs && 0 <= j < |gs| && r == GroupRecord(c, gs, j);
          if c == last {
            assert GroupRecords(last, gs)[j] == r;
          } else {
            assert c in init;
          }
        }
      }
    }
  }

  // ------------------------------------------------------------ de-duplication

  /** The columns `drop_duplicates` compares: `Nivel`, `Grado`, `Grupo`, the class name and `Materias`. */
  type DupKey = (seq<char>, seq<char>, char, seq<char>, seq<char>)

  function Key(r: Registro): DupKey {
    (NivelName(r.nivel), r.grado, r.grupo, r.nombre, MateriaName(r.materia))
  }

  predicate HasKey(rs: seq<Registro>, k: DupKey) {
    exists r :: r in rs && Key(r) == k
  }

  /** `drop_duplicates(keep="first")`: a record is dropped when an earlier one has its key. */
  function Dedupe(rs: seq<Registro>): (d: seq<Registro>)
    ensures |d| <= |rs|
  {
    if rs == [] then []
    else
      var init := rs[..|rs| - 1];
      Dedupe(init) + (if HasKey(init, Key(rs[|rs| - 1])) then [] else [rs[|rs| - 1]])
  }

  /**
   * The de-duplicated records come from the input, carry every key of the
   * input exactly once, and keep the first record of each key.
   */
  lemma DedupeMeaning(rs: seq<Registro>)
    ensures forall r :: r in Dedupe(rs) ==> r in rs
    ensures forall k :: HasKey(Dedupe(rs), k) <==> HasKey(rs, k)
    ensures forall i, j :: 0 <= i < j < |Dedupe(rs)| ==> Key(Dedupe(rs)[i]) != Key(Dedupe(rs)[j])
    ensures forall i :: 0 <= i < |rs| && !HasKey(rs[..i], Key(rs[i])) ==> rs[i] in Dedupe(rs)
  {
    DedupeFrom(rs);
    DedupeKeys(rs);
    DedupeDistinct(rs);
    DedupeKeepsFirst(rs);
  }

  lemma {:induction false} DedupeFrom(rs: seq<Registro>)
    ensures forall r :: r in Dedupe(rs) ==> r in rs
  {
    if rs != [] {
      var init := rs[..|rs| - 1];
      DedupeFrom(init);
      assert rs == init + [rs[|rs| - 1]];
    }
  }

  lemma {:induction false} DedupeKeys(rs: seq<Registro>)
    ensures forall k :: HasKey(Dedupe(rs), k) <==> HasKey(rs, k)
  {
    if rs != [] {
      var init, last := rs[..|rs| - 1], rs[|rs| - 1];
      var d := Dedupe(init);
      DedupeKeys(init);
      DedupeFrom(init);
      assert rs == init + [last];
      forall k
        ensures HasKey(Dedupe(rs), k) <==> HasKey(rs, k)
      {
        if HasKey(rs, k) {
          var r :| r in rs && Key(r) == k;
          if HasKey(init, k) {
            var s :| s in d && Key(s) == k;
            assert s in Dedupe(rs);
          } else {
            assert r == last;
            assert last in Dedupe(rs);
          }
        }
        if HasKey(Dedupe(rs), k) {
          var s :| s in Dedupe(rs) && Key(s) == k;
          if s in d {
            assert s in rs;
          } else {
            assert s == last;
          }
        }
      }
    }
  }

  lemma {:induction false} DedupeDistinct(rs: seq<Registro>)
    ensures forall i, j :: 0 <= i < j < |Dedupe(rs)| ==> Key(Dedupe(rs)[i]) != Key(Dedupe(rs)[j])
  {
    if rs != [] {
      var init, last := rs[..|rs| - 1], rs[|rs| - 1];
      var d := Dedupe(init);
      DedupeDistinct(init);
      DedupeFrom(init);
      if !HasKey(init, Key(last)) {
        forall i | 0 <= i < |d|
          ensures Key(d[i]) != Key(last)
        {
          assert d[i] in d;
        }
      }
    }
  }

  lemma {:induction false} DedupeKeepsFirst(rs: seq<Registro>)
    ensures forall i :: 0 <= i < |rs| && !HasKey(rs[..i], Key(rs[i])) ==> rs[i] in Dedupe(rs)
  {
    if rs != [] {
      var init, last := rs[..|rs| - 1], rs[|rs| - 1];
      var d := Dedupe(init);
      DedupeKeepsFirst(init);
      forall i | 0 <= i < |rs| && !HasKey(rs[..i], Key(rs[i]))
        ensures rs[i] in Dedupe(rs)
      {
        if i < |init| {
          assert rs[..i] == init[..i];
          assert init[i] in d;
        } else {
          assert rs[..i] == init;
        }
      }
    }
  }

  // ------------------------------------------------------------ the table

  /** `_orden_nivel`, `_orden_grado`, `_orden_materia` and `_orden_grupo`. */
  function SortKey(r: Registro): seq<nat> {
    [NivelOrden(r.nivel), r.gradoNum, Orden(r.materia), r.ordenGrupo]
  }

  /** The columns `transformar` needs. */
  const RequiredColumns: set<seq<char>> := {"Plataforma", "Asignatura Producto", "Nivel Educativo", "Grado", "Producto"}

  function Missing(t: Table): set<seq<char>> {
    set c | c in RequiredColumns && c !in t.columns
  }

  /** The KeyError of a sheet lacking columns, the ValueError of a bad group, or the rows of the template. */
  datatype Outcome = ColumnsMissing(missing: set<seq<char>>) | GruposInvalidos(tokens: seq<seq<char>>) | Output(records: seq<Registro>)

  /** The records of a sheet for the given groups: produced, de-duplicated, then sorted. */
  function Salida(t: Table, gs: seq<char>): seq<Registro> {
    Sort(Dedupe(Registros(Clases(Filas(t)), gs)), SortKey)
  }

  /**
   * `transformar`: an empty sheet gives an empty table before the groups
   * are looked at; the sort never reaches `Materias`, since the subject
   * order already tells the subjects apart (`OrdenInjective`).
   */
  function Transform(t: Table, a: GruposArg): Outcome {
    if Missing(t) != {} then ColumnsMissing(Missing(t))
    else if t.rows == [] then Output([])
    else
      match NormalizeGrupos(a)
      case InvalidGrupos(ts) => GruposInvalidos(ts)
      case Grupos(gs) => Output(Salida(t, gs))
  }

  method Transformar(t: Table, a: GruposArg) returns (r: Outcome)
    ensures r == Transform(t, a)
  {
    var missing := set c | c in RequiredColumns && c !in t.columns;
    if missing != {} {
      return ColumnsMissing(missing);
    }
    if t.rows == [] {
      return Output([]);
    }
    var grupos := ParseGrupos(a);
    if grupos.InvalidGrupos? {
      return GruposInvalidos(grupos.tokens);
    }
    var registros := CollectRegistros(RowClasses(Filas(t)), grupos.letters);
    return Output(Sort(Dedupe(registros), SortKey));
  }

  /**
   * `transformar` fails with a KeyError iff a required column is absent and
   * with a ValueError only for a non-empty sheet with a bad group; its
   * table is sorted by level, grade, subject and group, holds records the
   * rows produce, every key among them once, and the first record of each.
   */
  lemma TransformMeaning(t: Table, a: GruposArg)
    ensures Transform(t, a).ColumnsMissing? <==> exists c :: c in RequiredColumns && c !in t.columns
    ensures Transform(t, a).GruposInvalidos? <==>
      Missing(t) == {} && t.rows != [] && NormalizeGrupos(a).InvalidGrupos?
    ensures Missing(t) == {} && t.rows == [] ==> Transform(t, a) == Output([])
    ensures Transform(t, a).Output? && t.rows != [] ==>
      var rs := Registros(Clases(Filas(t)), NormalizeGrupos(a).letters);
      var out := Transform(t, a).records;
      Sorted(out, SortKey) &&
      (forall r :: r in out ==> r in rs) &&
      (forall k :: HasKey(out, k) <==> HasKey(rs, k)) &&
      (forall i, j :: 0 <= i < j < |out| ==> Key(out[i]) != Key(out[j])) &&
      (forall i :: 0 <= i < |rs| && !HasKey(rs[..i], Key(rs[i])) ==> rs[i] in out)
  {
    if exists c :: c in RequiredColumns && c !in t.columns {
      var c :| c in RequiredColumns && c !in t.columns;
      assert c in Missing(t);
    }
    if Transform(t, a).Output? && t.rows != [] {
      OutputMeaning(Registros(Clases(Filas(t)), NormalizeGrupos(a).letters));
    }
  }

  /**
   * The table made from some records is sorted, holds only those records,
   * every key among them once, and the first record of each key.
   */
  lemma OutputMeaning(rs: seq<Registro>)
    ensures var out := Sort(Dedupe(rs), SortKey);
      Sorted(out, SortKey) &&
      (forall r :: r in out ==> r in rs) &&
      (forall k :: HasKey(out, k) <==> HasKey(rs, k)) &&
      (forall i, j :: 0 <= i < j < |out| ==> Key(out[i]) != Key(out[j])) &&
      (forall i :: 0 <= i < |rs| && !HasKey(rs[..i], Key(rs[i])) ==> rs[i] in out)
  {
    var d := Dedupe(rs);
    var out := Sort(d, SortKey);
    DedupeMeaning(rs);
    SortPermutes(d, SortKey);
    SortSorted(d, SortKey, 4);
    forall r
      ensures r in out <==> r in d
    {
      assert r in multiset(out) <==> r in multiset(d);
    }
    forall k
      ensures HasKey(out, k) <==> HasKey(d, k)
    {
    }
    DistinctKeysPermuted(d, out);
  }

  /** Records with pairwise different keys still have them after any reordering. */
  lemma DistinctKeysPermuted(d: seq<Registro>, out: seq<Registro>)
    requires multiset(out) == multiset(d)
    requires forall i, j :: 0 <= i < j < |d| ==> Key(d[i]) != Key(d[j])
    ensures forall i, j :: 0 <= i < j < |out| ==> Key(out[i]) != Key(out[j])
  {
    forall i, j | 0 <= i < j < |out|
      ensures Key(out[i]) != Key(out[j])
    {
      if Key(out[i]) == Key(out[j]) {
        var x, y := out[i], out[j];
        assert x in multiset(d) && y in multiset(d);
        var p :| 0 <= p < |d| && d[p] == x;
        var q :| 0 <= q < |d| && d[q] == y;
        if p == q {
          assert x == y;
          CountedTwice(out, i, j);
          DistinctOnce(d, x);
        }
      }
    }
  }

  /** A value at two positions of a sequence is counted at least twice. */
  lemma CountedTwice<T>(s: seq<T>, i: nat, j: nat)
    requires i < j < |s| && s[i] == s[j]
    ensures multiset(s)[s[i]] >= 2
  {
    assert s == s[..j] + s[j..];
    assert s[..j] == s[..j][..i] + s[..j][i..];
    assert s[..j][i..][0] == s[i] && s[j..][0] == s[j];
    assert multiset(s[..j][i..])[s[i]] >= 1 && multiset(s[j..])[s[i]] >= 1;
  }

  /** In records with pairwise different keys each record occurs once. */
  lemma {:induction false} DistinctOnce(d: seq<Registro>, x: Registro)
    requires forall i, j :: 0 <= i < j < |d| ==> Key(d[i]) != Key(d[j])
    ensures multiset(d)[x] <= 1
  {
    if d != [] {
      var init := d[..|d| - 1];
      DistinctOnce(init, x);
      assert d == init + [d[|d| - 1]];
      if d[|d| - 1] == x {
        forall p | 0 <= p < |init|
          ensures init[p] != x
        {
          assert Key(d[p]) != Key(d[|d| - 1]);
        }
      }
    }
  }

  // ------------------------------------------------------------ record facts

  /**
   * A record names the group it belongs to, and its group position is that
   * letter's place in the list (`grupo_order`), counted from 1.
   */
  lemma GroupRecordOrder(c: Clase, gs: seq<char>, j: nat)
    requires j < |gs| && forall a, b :: 0 <= a < b < |gs| ==> gs[a] != gs[b]
    ensures var r := GroupRecord(c, gs, j);
      1 <= r.ordenGrupo <= |gs| && gs[r.ordenGrupo - 1] == r.grupo &&
      forall i :: 0 <= i < |gs| && gs[i] == r.grupo ==> i + 1 == r.ordenGrupo
  {
  }

  /**
   * The class catalog of profesores_clases.py reads every record of an
   * ordinary class back as the class's grade and level in the record's
   * group.
   */
  lemma RecordReadBack(c: Clase, gs: seq<char>, j: nat)
    requires j < |gs| && IsUpper(gs[j]) && 1 <= c.gradoNum <= 99
    requires c.nombre == MateriaName(c.materia) + " " + SectionSuffix(c.gradoNum, [CodigoNivel(c.nivel)], 'A')
    ensures ProfesoresClases.ParsableName(GroupRecord(c, gs, j).nombre)
    ensures ProfesoresClases.ParseClassSuffix(GroupRecord(c, gs, j).nombre) ==
      Some(ProfesoresClases.Suffix(c.gradoNum, CodigoNivel(c.nivel), gs[j]))
  {
    var title := MateriaName(c.materia) + " ";
    assert c.nombre == title + SectionSuffix(c.gradoNum, [CodigoNivel(c.nivel)], 'A');
    GroupReadBack(title, c.gradoNum, c.nivel, gs[j], |gs| > 1);
  }

  // ------------------------------------------------------------ process_excel

  /** `filas_en_hoja`, `filas_filtradas` and `filas_salida`. */
  datatype Resumen = Resumen(filasEnHoja: nat, filasFiltradas: nat, filasSalida: nat)

  /**
   * The outcome of `process_excel` on a loaded sheet: the KeyError of a
   * missing code column, the ValueError of a code without rows, the failure
   * of `transformar`, the ValueError of an empty template, or the template
   * rows with the summary.
   */
  datatype Proceso =
    | ColumnaCodigoAusente(col: seq<char>, available: seq<seq<char>>)
    | SinFilasCodigo
    | TransformacionFallida(outcome: Outcome)
    | SinFilasSalida
    | Procesado(records: seq<Registro>, resumen: Resumen)

  function ProcessExcel(t: Table, codigo: seq<char>, col: seq<char>, a: GruposArg): Proceso {
    match FilterCode(t, codigo, col)
    case NoSuchColumn(c, available) => ColumnaCodigoAusente(c, available)
    case Kept(ft) =>
      if ft.rows == [] then SinFilasCodigo
      else
        match Transform(ft, a)
        case Output(rs) => if rs == [] then SinFilasSalida else Procesado(rs, Resumen(|t.rows|, |ft.rows|, |rs|))
        case ColumnsMissing(m) => TransformacionFallida(ColumnsMissing(m))
        case GruposInvalidos(ts) => TransformacionFallida(GruposInvalidos(ts))
  }

  /**
   * A finished run reports at least one output row and at least one
   * filtered row, no more than the sheet holds; its rows are the template
   * of the rows carrying the code.
   */
  lemma ProcessExcelMeaning(t: Table, codigo: seq<char>, col: seq<char>, a: GruposArg)
    ensures ProcessExcel(t, codigo, col, a).ColumnaCodigoAusente? <==> col !in t.columns
    ensures ProcessExcel(t, codigo, col, a).Procesado? ==>
      var p := ProcessExcel(t, codigo, col, a);
      var ft := FilterCode(t, codigo, col).table;
      0 < p.resumen.filasFiltradas <= p.resumen.filasEnHoja == |t.rows| &&
      0 < p.resumen.filasSalida == |p.records| &&
      Transform(ft, a) == Output(p.records) &&
      forall row :: row in ft.rows ==> row in t.rows && HasCode(row, col, codigo)
  {
    if col in t.columns {
      RowsWithCodeMeaning(t.rows, col, codigo);
    }
  }
}
