/**
 * The class-template export of processor.py and main.py: rows of the CRM
 * export sheet for the platform "Compartir Aprendizajes" become one class
 * per row, named `<subject> <grade><suffix>`, in group A, sorted primary
 * first, then by grade, with Comunicación before the other subjects. Both
 * files hold the same code except the subject table, where main.py's copy
 * repeats the key `MATEMATICAS`; the model follows processor.py's table
 * and keeps main.py's as written beside it.
 */
module CrmExport {
  import opened Text
  import opened Sheet
  import opened RecordSort

  // ------------------------------------------------------------ levels

  /** The two levels the export names. */
  datatype Nivel = Primaria | Secundaria

  function NivelName(n: Nivel): seq<char> {
    if n == Primaria then "Primaria" else "Secundaria"
  }

  /** The normalised level cell each level is read from. */
  function NivelKey(n: Nivel): seq<char> {
    if n == Primaria then "EDUCACION PRIMARIA" else "EDUCACION SECUNDARIA"
  }

  /** `_mapear_nivel`: only the primary and secondary level names; any other cell, Inicial included, maps to nothing. */
  function MapearNivel(v: seq<char>): (r: Option<Nivel>)
    ensures r.Some? ==> NormalizeKey(v) == NivelKey(r.value)
  {
    var k := NormalizeKey(v);
    if k == NivelKey(Primaria) then Some(Primaria)
    else if k == NivelKey(Secundaria) then Some(Secundaria)
    else None
  }

  /** Each level's own name reads back as that level. */
  lemma MapearNivelRoundTrip(n: Nivel)
    ensures MapearNivel(NivelKey(n)) == Some(n)
  {
    var x := NivelKey(n);
    assert forall i :: 0 <= i < |x| ==> IsUpper(x[i]) || x[i] == ' ';
    NormalizeKeyOfPlain(x);
  }

  /** The level read ignores accents, case and padding: a normalised cell reads the same. */
  lemma MapearNivelNormalized(v: seq<char>)
    ensures MapearNivel(NormalizeKey(v)) == MapearNivel(v)
  {
    NormalizeKeyIdempotent(v);
  }

  // ------------------------------------------------------------ subjects

  /** The subjects either subject table names. */
  datatype Materia = Comunicacion | Matematica | Informatica

  function MateriaName(m: Materia): seq<char> {
    match m
    case Comunicacion => "Comunicación"
    case Matematica => "Matemática"
    case Informatica => "Informática"
  }

  function Sufijo(m: Materia): seq<char> {
    match m
    case Comunicacion => "CO"
    case Matematica => "MA"
    case Informatica => "IN"
  }

  /** `_mapear_materia` of processor.py: only COMUNICACION and MATEMATICAS are recognised. */
  function MapearMateria(v: seq<char>): (r: Option<Materia>)
    ensures r != Some(Informatica)
  {
    var k := NormalizeKey(v);
    if k == "COMUNICACION" then Some(Comunicacion)
    else if k == "MATEMATICAS" then Some(Matematica)
    else None
  }

  /** The normalised cell a subject of processor.py's table is read from. */
  function MateriaKey(m: Materia): seq<char>
    requires m != Informatica
  {
    if m == Comunicacion then "COMUNICACION" else "MATEMATICAS"
  }

  /** Each subject of processor.py's table reads back from its key. */
  lemma MapearMateriaRoundTrip(m: Materia)
    requires m != Informatica
    ensures MapearMateria(MateriaKey(m)) == Some(m)
  {
    var x := MateriaKey(m);
    assert forall i :: 0 <= i < |x| ==> IsUpper(x[i]);
    NormalizeKeyOfPlain(x);
  }

  /**
   * `_mapear_materia` of main.py as written: its dict literal lists the key
   * `MATEMATICAS` twice and the later entry wins.
   */
  function MainMapearMateria(v: seq<char>): (r: Option<Materia>)
    ensures r != Some(Matematica)
  {
    var k := NormalizeKey(v);
    if k == "COMUNICACION" then Some(Comunicacion)
    else if k == "MATEMATICAS" then Some(Informatica)
    else None
  }

  /** The mathematics cell that processor.py reads as Matemática, main.py reads as Informática. */
  lemma MainMathShadowed()
    ensures MapearMateria("MATEMATICAS") == Some(Matematica)
    ensures MainMapearMateria("MATEMATICAS") == Some(Informatica)
  {
    MapearMateriaRoundTrip(Matematica);
  }

  // ------------------------------------------------------------ rows

  /** The working columns of one row after `fillna("")` and `strip`. */
  datatype Fila = Fila(plataforma: seq<char>, asignatura: seq<char>, nivel: seq<char>, grado: seq<char>, razon: seq<char>)

  function FilaOf(columns: seq<seq<char>>, row: Row): Fila {
    Fila(Strip(Value(row, "Plataforma")), Strip(Value(row, "Asignatura Producto")),
      Strip(Value(row, "Nivel Educativo")), Strip(Value(row, "Grado")),
      if "Razon Estado" in columns then Strip(Value(row, "Razon Estado")) else "")
  }

  function Filas(t: Table): (fs: seq<Fila>)
    ensures |fs| == |t.rows|
  {
    seq(|t.rows|, i requires 0 <= i < |t.rows| => FilaOf(t.columns, t.rows[i]))
  }

  /** The row filters: the platform exactly, a validated or blank state, a subject and a non-initial level. */
  predicate Selected(f: Fila) {
    f.plataforma == "Compartir Aprendizajes" && (f.razon == "Validado" || f.razon == "") &&
    NormalizeKey(f.asignatura) != "NO APLICA" && NormalizeKey(f.nivel) != "EDUCACION INICIAL"
  }

  /**
   * One output row: `Nivel`, `Grado`, `Materias` and the class name, which
   * is both `Nombre de Clase` and `Clase Clave`; `Grupo` is always
   * "Grupo A" and `Alias Clase` is empty.
   */
  datatype Record = Record(nivel: Nivel, grado: seq<char>, nombre: seq<char>, materia: Materia, gradoNum: nat)

  /** `f"{materia_legible} {grado_num}{sufijo}"`. */
  function ClassName(m: Materia, n: nat): seq<char> {
    MateriaName(m) + " " + NatToString(n) + Sufijo(m)
  }

  /** The record a row yields, if it passes the filters and every field maps. */
  function RowRecord(f: Fila): Option<Record> {
    if !Selected(f) then None
    else
      var g := StrictGrade(f.grado);
      match (MapearNivel(f.nivel), MapearMateria(f.asignatura))
      case (Some(nivel), Some(m)) =>
        if g.0 == [] || g.1 == 0 then None else Some(Record(nivel, g.0, ClassName(m, g.1), m, g.1))
      case _ => None
  }

  /** What each row yields. */
  function RowRecords(fs: seq<Fila>): (os: seq<Option<Record>>)
    ensures |os| == |fs| && forall i :: 0 <= i < |fs| ==> os[i] == RowRecord(fs[i])
  {
    seq(|fs|, i requires 0 <= i < |fs| => RowRecord(fs[i]))
  }

  /** The records of the rows, in row order. */
  function Records(fs: seq<Fila>): seq<Record> {
    Somes(RowRecords(fs))
  }

  /** The record loop of `transformar`. */
  method CollectRecords(fs: seq<Fila>) returns (registros: seq<Record>)
    ensures registros == Records(fs)
  {
    ghost var os := RowRecords(fs);
    registros := [];
    for k := 0 to |fs|
      invariant registros == Somes(os[..k])
    {
      RecordStep(fs, k);
      var f := fs[k];
      RowRecordCases(f);
      if !Selected(f) {
        continue;
      }
      var nivel := MapearNivel(f.nivel);
      var g := StrictGrade(f.grado);
      var m := MapearMateria(f.asignatura);
      if nivel.None? || g.0 == [] || g.1 == 0 || m.None? {
        continue;
      }
      registros := registros + [Record(nivel.value, g.0, ClassName(m.value, g.1), m.value, g.1)];
    }
    assert os[..|fs|] == os;
  }

  /** One more row adds its record, if any, to the records of the rows before it. */
  lemma RecordStep(fs: seq<Fila>, k: nat)
    requires k < |fs|
    ensures Somes(RowRecords(fs)[..k + 1]) ==
      Somes(RowRecords(fs)[..k]) + (if RowRecord(fs[k]).Some? then [RowRecord(fs[k]).value] else [])
  {
    var os := RowRecords(fs);
    assert os[..k + 1][..k] == os[..k];
  }

  /** `RowRecord` as the chain of early exits of the record loop. */
  lemma RowRecordCases(f: Fila)
    ensures RowRecord(f) ==
      var nivel, g, m := MapearNivel(f.nivel), StrictGrade(f.grado), MapearMateria(f.asignatura);
      if !Selected(f) || nivel.None? || g.0 == [] || g.1 == 0 || m.None? then None
      else Some(Record(nivel.value, g.0, ClassName(m.value, g.1), m.value, g.1))
  {
  }

  /**
   * A row yields a record iff it passes the filters and its level, grade and
   * subject all map; the record carries what they map to, a grade of at most
   * 6 and the name built from them.
   */
  lemma RowRecordMeaning(f: Fila)
    ensures RowRecord(f).Some? <==>
      Selected(f) && MapearNivel(f.nivel).Some? && MapearMateria(f.asignatura).Some? && StrictGrade(f.grado).1 != 0
    ensures RowRecord(f).Some? ==>
      var r := RowRecord(f).value;
      MapearNivel(f.nivel) == Some(r.nivel) && MapearMateria(f.asignatura) == Some(r.materia) &&
      StrictGrade(f.grado) == (r.grado, r.gradoNum) && r.grado != [] && 1 <= r.gradoNum <= 6 &&
      r.nombre == ClassName(r.materia, r.gradoNum)
  {
    GradesWellFormed(f.grado);
  }

  /** The records are exactly those the rows yield, at most one per row. */
  lemma RecordsMeaning(fs: seq<Fila>)
    ensures |Records(fs)| <= |fs|
    ensures forall r :: r in Records(fs) <==> exists i :: 0 <= i < |fs| && RowRecord(fs[i]) == Some(r)
  {
    var os := RowRecords(fs);
    SomesMeaning(os);
    forall r
      ensures Some(r) in os <==> exists i :: 0 <= i < |fs| && RowRecord(fs[i]) == Some(r)
    {
      if Some(r) in os {
        var i :| 0 <= i < |os| && os[i] == Some(r);
      }
    }
  }

  /** A class name gives back its subject and grade. */
  lemma ClassNameInjective(m1: Materia, n1: nat, m2: Materia, n2: nat)
    requires ClassName(m1, n1) == ClassName(m2, n2)
    ensures m1 == m2 && n1 == n2
  {
    var a, b := ClassName(m1, n1), ClassName(m2, n2);
    assert a[0] == MateriaName(m1)[0] && b[0] == MateriaName(m2)[0];
    assert m1 == m2;
    var p := MateriaName(m1) + " ";
    var s := Sufijo(m1);
    assert a == p + NatToString(n1) + s && b == p + NatToString(n2) + s;
    assert NatToString(n1) == a[|p|..|a| - |s|];
    assert NatToString(n2) == b[|p|..|b| - |s|];
    NatToStringValue(n1);
    NatToStringValue(n2);
  }

  // ------------------------------------------------------------ output

  /** `_orden_materia`: Comunicación first. */
  function MateriaOrden(m: Materia): nat {
    if m == Comunicacion then 0 else 1
  }

  /**
   * The subject's place once `_orden_materia` and then the subject name
   * (`Informática` < `Matemática`) are compared.
   */
  function MateriaRank(m: Materia): (r: nat)
    ensures MateriaOrden(m) == 0 <==> r == 0
  {
    match m
    case Comunicacion => 0
    case Informatica => 1
    case Matematica => 2
  }

  /** `_orden_nivel`, `_orden_grado` and the subject's place. */
  function SortKey(r: Record): seq<nat> {
    [if r.nivel == Primaria then 0 else 1, r.gradoNum, MateriaRank(r.materia)]
  }

  const RequiredColumns: set<seq<char>> := {"Plataforma", "Asignatura Producto", "Nivel Educativo", "Grado"}

  /** The KeyError of a sheet lacking columns, or the sorted records. */
  datatype Outcome = ColumnsMissing(missing: set<seq<char>>) | Output(records: seq<Record>)

  function Missing(t: Table): set<seq<char>> {
    set c | c in RequiredColumns && c !in t.columns
  }

  /** `transformar`. */
  function Transform(t: Table): Outcome {
    if Missing(t) != {} then ColumnsMissing(Missing(t))
    else Output(Sort(Records(Filas(t)), SortKey))
  }

  method Transformar(t: Table) returns (r: Outcome)
    ensures r == Transform(t)
  {
    var missing := set c | c in RequiredColumns && c !in t.columns;
    if missing != {} {
      return ColumnsMissing(missing);
    }
    var registros := CollectRecords(Filas(t));
    return Output(Sort(registros, SortKey));
  }

  /**
   * `transformar` fails iff a required column is absent; otherwise its rows
   * are the rows' records, each kept as often as it is produced, sorted
   * primary first, then by grade, then Comunicación before the others.
   */
  lemma TransformMeaning(t: Table)
    ensures Transform(t).ColumnsMissing? <==> exists c :: c in RequiredColumns && c !in t.columns
    ensures Transform(t).Output? ==>
      multiset(Transform(t).records) == multiset(Records(Filas(t))) &&
      Sorted(Transform(t).records, SortKey)
  {
    if exists c :: c in RequiredColumns && c !in t.columns {
      var c :| c in RequiredColumns && c !in t.columns;
      assert c in Missing(t);
    }
    SortPermutes(Records(Filas(t)), SortKey);
    SortSorted(Records(Filas(t)), SortKey, 3);
  }
}
