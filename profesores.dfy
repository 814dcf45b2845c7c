/**
 * Teacher listing merge (santillana_format/profesores.py): the per-level
 * teacher listings and the per-teacher detail payloads are folded into one
 * record per persona, with the levels it appears in, an activo flag per
 * level combined by OR, and a derived Estado.
 *
 * The two remote calls are oracles indexed by call number: `fetchList(k, n)`
 * is the k-th listing request (for level n), `fetchDetail(k, n, p)` the k-th
 * detail request (persona p, through level n); `None` is a failed request.
 */
module Profesores {
  import opened Text

  /** The level ids of NIVEL_MAP: Inicial, Primaria, Secundaria. */
  const Inicial: int := 38
  const Primaria: int := 39
  const Secundaria: int := 40
  const AllNiveles: seq<int> := [Inicial, Primaria, Secundaria]

  // ---------------------------------------------------------------- JSON values

  /** Python truthiness of a scalar JSON value. */
  predicate PyTruthy(c: Cell) {
    match c
    case Null => false
    case Flag(b) => b
    case Number(n) => n != 0
    case NotANumber => true
    case Str(s) => s != []
  }

  /** `value in (None, "")`. */
  predicate IsMissing(c: Cell) {
    c == Null || c == Str("")
  }

  /** `int(value)`, or `None` where Python raises TypeError or ValueError. */
  function PyInt(c: Cell): (r: Option<int>)
    ensures c.Number? ==> r == Some(c.n)
    ensures c.Null? || c.NotANumber? ==> r == None
  {
    match c
    case Null => None
    case Flag(b) => Some(if b then 1 else 0)
    case Number(n) => Some(n)
    case NotANumber => None
    case Str(s) => ParseInt(s)
  }

  /** The accepted "yes" words of `_parse_activo`, with the accented `sí`. */
  const TrueWords: set<seq<char>> := {"true", "1", "si", "sí", "yes"}

  /**
   * The same set as the source spells it: the accented word appears as the
   * UTF-8 bytes of `í` decoded as Latin-1 (`Ã` followed by a soft hyphen).
   */
  const TrueWordsAsWritten: set<seq<char>> := {"true", "1", "si", "sÃ­", "yes"}

  /** `_parse_activo` as the source writes it. */
  function ParseActivoAsWritten(c: Cell): (r: bool)
  {
    match c
    case Flag(b) => b
    case Number(n) => n != 0
    case NotANumber => true
    case Str(s) => Lower(Strip(s)) in TrueWordsAsWritten
    case Null => false
  }

  /**
   * `_parse_activo`: a bool as is, a number by `!= 0` (NaN is not zero),
   * text by its trimmed lower-case form, anything else false.
   */
  function ParseActivo(c: Cell): (r: bool)
  {
    match c
    case Flag(b) => b
    case Number(n) => n != 0
    case NotANumber => true
    case Str(s) => Lower(Strip(s)) in TrueWords
    case Null => false
  }

  /** The accented yes is rejected as written and accepted once corrected. */
  lemma ParseActivoRejectsAccentedSi()
    ensures !ParseActivoAsWritten(Str("sí"))
    ensures ParseActivo(Str("sí"))
  {
    StripUnpadded("sí");
    assert Lower("sí") == "sí";
    assert "sí" != "sÃ­";
  }

  /** A yes word with any whitespace padding is active. */
  lemma ParseActivoOfPaddedWord(pre: seq<char>, w: seq<char>, post: seq<char>)
    requires IsBlank(pre) && IsBlank(post)
    requires w in TrueWords
    ensures ParseActivo(Str(pre + w + post))
  {
    StripPadded(pre, w, post);
    assert Lower(w) == w;
  }

  /** The two spellings differ on exactly the accented word. */
  lemma ParseActivoDiffersOnlyOnAccent(c: Cell)
    requires ParseActivoAsWritten(c) != ParseActivo(c)
    ensures c.Str? && Lower(Strip(c.s)) in {"sí", "sÃ­"}
  {
  }

  // ---------------------------------------------------------------- detail payloads

  /**
   * One element of a detail's `niveles` or `personaRoles` list: either not an
   * object, or the `nivel.nivelId` value (Null when `nivel` is absent or not
   * an object), the entry's own `nivelId` and its `activo`.
   */
  datatype NivelRef = NotAnObject | NivelRef(nestedId: Cell, ownId: Cell, activo: Cell)

  /**
   * A detail payload: its scalar fields, its `niveles` and `personaRoles`
   * lists and, when `personaLogin` is an object, that object's `login`.
   */
  datatype Detail = Detail(fields: map<seq<char>, Cell>, niveles: seq<NivelRef>,
                           personaRoles: seq<NivelRef>, personaLogin: Option<Cell>)

  /**
   * The level id of an entry: `nivel.nivelId`, falling back (when asked) to
   * the entry's own `nivelId` when the nested one is falsy; `None` when that
   * is None or not an integer.
   */
  function NivelId(e: NivelRef, fallback: bool): Option<int>
    requires e.NivelRef?
  {
    PyInt(if fallback && !PyTruthy(e.nestedId) then e.ownId else e.nestedId)
  }

  /** Whether `_extract_niveles` keeps an entry: an object, and not `activo is False` when filtering. */
  predicate Kept(e: NivelRef, onlyActivos: bool) {
    e.NivelRef? && !(onlyActivos && e.activo == Flag(false))
  }

  /** The level ids of the kept entries, list prefix by list prefix. */
  function NivelesOf(es: seq<NivelRef>, onlyActivos: bool, fallback: bool): set<int>
  {
    if es == [] then {}
    else
      var e := es[|es| - 1];
      NivelesOf(es[..|es| - 1], onlyActivos, fallback)
        + if Kept(e, onlyActivos) && NivelId(e, fallback).Some? then {NivelId(e, fallback).value} else {}
  }

  /** A level id is extracted iff some kept entry carries it. */
  lemma {:induction false} NivelesOfMeaning(es: seq<NivelRef>, onlyActivos: bool, fallback: bool, x: int)
    ensures x in NivelesOf(es, onlyActivos, fallback) <==>
              exists k :: 0 <= k < |es| && Kept(es[k], onlyActivos) && NivelId(es[k], fallback) == Some(x)
  {
    if es != [] {
      var init := es[..|es| - 1];
      NivelesOfMeaning(init, onlyActivos, fallback, x);
      if x in NivelesOf(init, onlyActivos, fallback) {
        var k :| 0 <= k < |init| && Kept(init[k], onlyActivos) && NivelId(init[k], fallback) == Some(x);
        assert es[k] == init[k];
      }
      if exists k :: 0 <= k < |es| && Kept(es[k], onlyActivos) && NivelId(es[k], fallback) == Some(x) {
        var k :| 0 <= k < |es| && Kept(es[k], onlyActivos) && NivelId(es[k], fallback) == Some(x);
        if k < |init| {
          assert init[k] == es[k];
        }
      }
    }
  }

  /** Filtering on `activo` drops only the entries whose `activo` is exactly `False`. */
  lemma OnlyActivosDropsFalse(es: seq<NivelRef>, fallback: bool, x: int)
    requires x in NivelesOf(es, false, fallback) && x !in NivelesOf(es, true, fallback)
    ensures exists k :: 0 <= k < |es| && es[k].NivelRef? && es[k].activo == Flag(false)
                        && NivelId(es[k], fallback) == Some(x)
    ensures forall k :: 0 <= k < |es| && es[k].NivelRef? && NivelId(es[k], fallback) == Some(x) ==>
                        es[k].activo == Flag(false)
  {
    NivelesOfMeaning(es, false, fallback, x);
    NivelesOfMeaning(es, true, fallback, x);
  }

  /**
   * The levels `_extract_niveles` returns: those of `niveles` (with the
   * fallback id), and only when there are none, those of `personaRoles`
   * (nested id only).
   */
  function ExtractedNiveles(d: Detail, onlyActivos: bool): set<int>
  {
    var fromNiveles := NivelesOf(d.niveles, onlyActivos, true);
    if fromNiveles != {} then fromNiveles else NivelesOf(d.personaRoles, onlyActivos, false)
  }

  /** `personaRoles` is consulted only when `niveles` yields nothing. */
  lemma ExtractedNivelesMeaning(d: Detail, onlyActivos: bool, x: int)
    ensures x in ExtractedNiveles(d, onlyActivos) <==>
              (exists k :: 0 <= k < |d.niveles| && Kept(d.niveles[k], onlyActivos)
                           && NivelId(d.niveles[k], true) == Some(x))
              || ((forall k :: 0 <= k < |d.niveles| && Kept(d.niveles[k], onlyActivos) ==>
                                NivelId(d.niveles[k], true).None?)
                  && exists k :: 0 <= k < |d.personaRoles| && Kept(d.personaRoles[k], onlyActivos)
                                 && NivelId(d.personaRoles[k], false) == Some(x))
  {
    NivelesOfMeaning(d.niveles, onlyActivos, true, x);
    NivelesOfMeaning(d.personaRoles, onlyActivos, false, x);
    if NivelesOf(d.niveles, onlyActivos, true) != {} {
      NoMemberEmpty(NivelesOf(d.niveles, onlyActivos, true));
      var y :| y in NivelesOf(d.niveles, onlyActivos, true);
      NivelesOfMeaning(d.niveles, onlyActivos, true, y);
    } else {
      forall k | 0 <= k < |d.niveles| && Kept(d.niveles[k], onlyActivos)
        ensures NivelId(d.niveles[k], true).None?
      {
        if NivelId(d.niveles[k], true).Some? {
          NivelesOfMeaning(d.niveles, onlyActivos, true, NivelId(d.niveles[k], true).value);
        }
      }
    }
  }

  /** `_extract_niveles`: the two passes over the detail's lists. */
  method ExtractNiveles(d: Detail, onlyActivos: bool) returns (niveles: set<int>)
    ensures niveles == ExtractedNiveles(d, onlyActivos)
  {
    niveles := {};
    var i := 0;
    while i < |d.niveles|
      invariant 0 <= i <= |d.niveles|
      invariant niveles == NivelesOf(d.niveles[..i], onlyActivos, true)
    {
      var e := d.niveles[i];
      assert d.niveles[..i + 1][..i] == d.niveles[..i];
      if Kept(e, onlyActivos) {
        var id := NivelId(e, true);
        if id.Some? {
          niveles := niveles + {id.value};
        }
      }
      i := i + 1;
    }
    assert d.niveles[..i] == d.niveles;
    if niveles != {} {
      return;
    }
    var j := 0;
    while j < |d.personaRoles|
      invariant 0 <= j <= |d.personaRoles|
      invariant niveles == NivelesOf(d.personaRoles[..j], onlyActivos, false)
    {
      var e := d.personaRoles[j];
      assert d.personaRoles[..j + 1][..j] == d.personaRoles[..j];
      if Kept(e, onlyActivos) {
        var id := NivelId(e, false);
        if id.Some? {
          niveles := niveles + {id.value};
        }
      }
      j := j + 1;
    }
    assert d.personaRoles[..j] == d.personaRoles;
  }

  /** Whether an entry takes part in the activo map: an object with a level id and a non-None `activo`. */
  predicate Counted(e: NivelRef) {
    e.NivelRef? && e.activo != Null && NivelId(e, true).Some?
  }

  /** The activo map of a list of entries, list prefix by list prefix, repeated ids combined by OR. */
  function ActivosOf(es: seq<NivelRef>): map<int, bool>
  {
    if es == [] then map[]
    else
      var m := ActivosOf(es[..|es| - 1]);
      var e := es[|es| - 1];
      if Counted(e) then
        var l := NivelId(e, true).value;
        m[l := (l in m && m[l]) || ParseActivo(e.activo)]
      else m
  }

  /**
   * A level is in the activo map iff some counted entry carries it, and it
   * maps to true iff some such entry is active.
   */
  lemma {:induction false} ActivosOfMeaning(es: seq<NivelRef>, l: int)
    ensures l in ActivosOf(es) <==> exists k :: 0 <= k < |es| && Counted(es[k]) && NivelId(es[k], true) == Some(l)
    ensures l in ActivosOf(es) ==>
              (ActivosOf(es)[l] <==> exists k :: 0 <= k < |es| && Counted(es[k]) && NivelId(es[k], true) == Some(l)
                                                  && ParseActivo(es[k].activo))
  {
    if es != [] {
      var init := es[..|es| - 1];
      ActivosOfMeaning(init, l);
      forall k | 0 <= k < |init|
        ensures init[k] == es[k]
      {
      }
    }
  }

  /** `_extract_niveles_activos_map`: `niveles` first, then `personaRoles`, into one map. */
  method ExtractNivelesActivosMap(d: Detail) returns (activos: map<int, bool>)
    ensures activos == ActivosOf(d.niveles + d.personaRoles)
  {
    activos := map[];
    var i := 0;
    while i < |d.niveles|
      invariant 0 <= i <= |d.niveles|
      invariant activos == ActivosOf(d.niveles[..i])
    {
      assert d.niveles[..i + 1][..i] == d.niveles[..i];
      var e := d.niveles[i];
      if e.NivelRef? && e.activo != Null {
        var id := NivelId(e, true);
        if id.Some? {
          var a := ParseActivo(e.activo);
          if id.value in activos {
            activos := activos[id.value := activos[id.value] || a];
          } else {
            activos := activos[id.value := a];
          }
        }
      }
      i := i + 1;
    }
    assert d.niveles[..i] == d.niveles + d.personaRoles[..0];
    var j := 0;
    while j < |d.personaRoles|
      invariant 0 <= j <= |d.personaRoles|
      invariant activos == ActivosOf(d.niveles + d.personaRoles[..j])
    {
      assert (d.niveles + d.personaRoles[..j + 1])[..|d.niveles| + j] == d.niveles + d.personaRoles[..j];
      var e := d.personaRoles[j];
      if e.NivelRef? && e.activo != Null {
        var id := NivelId(e, true);
        if id.Some? {
          var a := ParseActivo(e.activo);
          if id.value in activos {
            activos := activos[id.value := activos[id.value] || a];
          } else {
            activos := activos[id.value := a];
          }
        }
      }
      j := j + 1;
    }
    assert d.personaRoles[..j] == d.personaRoles;
  }

  // ---------------------------------------------------------------- Estado, field choice, file name

  /** `_derive_estado`: nothing known, some level active, or none active. */
  function DeriveEstado(activos: map<int, bool>): (r: seq<char>)
    ensures r in {"", "Activo", "Inactivo"}
    ensures r == "" <==> |activos| == 0
    ensures r == "Activo" <==> exists l :: l in activos && activos[l]
  {
    if |activos| == 0 then ""
    else if exists l :: l in activos && activos[l] then "Activo"
    else "Inactivo"
  }

  /**
   * The activo map after a detail payload: a level the detail reports active
   * becomes active, one it reports inactive is only added when absent.
   */
  function MergedActivos(current: map<int, bool>, fromDetail: map<int, bool>): map<int, bool>
  {
    map l | l in current.Keys + fromDetail.Keys :: (l in fromDetail && fromDetail[l]) || (l in current && current[l])
  }

  /** The detail merge never downgrades a level, and an active Estado stays active. */
  lemma MergeNeverDowngrades(current: map<int, bool>, fromDetail: map<int, bool>)
    ensures current.Keys <= MergedActivos(current, fromDetail).Keys
    ensures forall l :: l in current && current[l] ==> MergedActivos(current, fromDetail)[l]
    ensures DeriveEstado(current) == "Activo" ==> DeriveEstado(MergedActivos(current, fromDetail)) == "Activo"
    ensures DeriveEstado(current) != "" ==> DeriveEstado(MergedActivos(current, fromDetail)) != ""
  {
    var m := MergedActivos(current, fromDetail);
    if DeriveEstado(current) == "Activo" {
      var l :| l in current && current[l];
      assert m[l];
    }
    if DeriveEstado(current) != "" {
      NoMemberEmpty(current.Keys);
      assert current.Keys != {};
      var l :| l in current;
      assert l in m;
    }
  }

  /**
   * The detail's activo map folded into the listing's, level by level: a true
   * overwrites, a false goes in only where the level is absent.
   */
  method MergeDetailActivos(current: map<int, bool>, fromDetail: map<int, bool>) returns (r: map<int, bool>)
    ensures r == MergedActivos(current, fromDetail)
  {
    r := current;
    var rest := fromDetail.Keys;
    while rest != {}
      invariant rest <= fromDetail.Keys
      invariant forall l :: l in r <==> l in current || (l in fromDetail && l !in rest)
      invariant forall l :: l in r ==>
                  r[l] == ((l in fromDetail && l !in rest && fromDetail[l]) || (l in current && current[l]))
      decreases |rest|
    {
      NoMemberEmpty(rest);
      var l :| l in rest;
      if fromDetail[l] {
        r := r[l := true];
      } else if l !in r {
        r := r[l := false];
      }
      rest := rest - {l};
    }
    MergedActivosPointwise(current, fromDetail, r);
  }

  /** Extensionality for `MergedActivos`. */
  lemma MergedActivosPointwise(current: map<int, bool>, fromDetail: map<int, bool>, r: map<int, bool>)
    requires forall l :: l in r <==> l in current || l in fromDetail
    requires forall l :: l in r ==> r[l] == ((l in fromDetail && fromDetail[l]) || (l in current && current[l]))
    ensures r == MergedActivos(current, fromDetail)
  {
    var m := MergedActivos(current, fromDetail);
    forall l
      ensures l in r.Keys <==> l in m.Keys
    {
      assert l in m <==> l in current.Keys + fromDetail.Keys;
    }
    assert r.Keys == m.Keys;
    forall l | l in r
      ensures r[l] == m[l]
    {
    }
  }

  /** `_pick_value`: the detail's value unless None or empty, then the persona's, else empty text. */
  function PickValue(detail: Option<map<seq<char>, Cell>>, persona: map<seq<char>, Cell>, key: seq<char>): (r: Cell)
    ensures !IsMissing(r) || r == Str("")
    ensures detail.Some? && key in detail.value && !IsMissing(detail.value[key]) ==> r == detail.value[key]
    ensures !(detail.Some? && key in detail.value && !IsMissing(detail.value[key])) ==>
              r == if key in persona && !IsMissing(persona[key]) then persona[key] else Str("")
  {
    if detail.Some? && |detail.value| > 0 && key in detail.value && !IsMissing(detail.value[key]) then
      detail.value[key]
    else if key in persona && !IsMissing(persona[key]) then persona[key]
    else Str("")
  }

  /** `build_profesores_filename`. */
  function ProfesoresFilename(colegio: int): (r: seq<char>)
    ensures colegio == 0 <==> r == "profesores.xlsx"
    ensures colegio != 0 ==> |r| > 16 && r[..11] == "profesores_" && r[|r| - 5..] == ".xlsx"
  {
    if colegio != 0 then "profesores_" + IntToString(colegio) + ".xlsx" else "profesores.xlsx"
  }

  /** The colegio id reads back from the file name. */
  lemma ProfesoresFilenameRoundTrip(colegio: int)
    requires colegio != 0
    ensures var r := ProfesoresFilename(colegio); ParseInt(r[11..|r| - 5]) == Some(colegio)
  {
    var r := ProfesoresFilename(colegio);
    assert r[11..|r| - 5] == IntToString(colegio);
    ParseIntOfIntToString(colegio);
  }

  // ---------------------------------------------------------------- the listing merge

  /**
   * One element of a level listing: not an object, or its `personaRolId`,
   * its `persona` object (empty when absent or not an object) and `activo`.
   */
  datatype Item = NotAnItem | Item(personaRolId: Cell, persona: map<seq<char>, Cell>, activo: Cell)

  /** The per-persona record the merge builds. */
  datatype Entry = Entry(persona: map<seq<char>, Cell>, niveles: set<int>, nivelesActivos: map<int, bool>,
                         detalle: Option<Detail>, nivelPreferido: int, login: Cell,
                         nivelesDetalle: set<int>, nivelesDetalleActivos: set<int>, estado: seq<char>)

  datatype ErrorTipo = Listado | Detalle

  /** A logged error: its kind, the level of the request and the persona it concerns (`""` if none). */
  datatype ListError = ListError(tipo: ErrorTipo, nivelId: int, personaId: Cell)

  /**
   * The run state: the per-persona records with their insertion order, the
   * role ids already seen, and the errors so far.
   */
  datatype Listing = Listing(profesores: map<int, Entry>, order: seq<int>, seenRoles: set<int>, errores: seq<ListError>)

  /** The insertion order lists each recorded persona exactly once. */
  ghost predicate OrderOk(st: Listing) {
    && (forall i, j :: 0 <= i < j < |st.order| ==> st.order[i] != st.order[j])
    && (forall p :: p in st.profesores <==> p in st.order)
  }

  /** Every record was listed in at least one level, among them its preferred one. */
  ghost predicate EntriesOk(st: Listing, levels: set<int>) {
    forall p :: p in st.profesores ==>
      && st.profesores[p].niveles <= levels
      && st.profesores[p].nivelPreferido in st.profesores[p].niveles
      && st.profesores[p].nivelesActivos.Keys <= levels
  }

  /** The role id of an item, when present and an integer. */
  function RolOf(it: Item): Option<int>
    requires it.Item?
  {
    if it.personaRolId == Null then None else PyInt(it.personaRolId)
  }

  /** `persona.get("personaId")`. */
  function PersonaIdCell(it: Item): Cell
    requires it.Item?
  {
    if "personaId" in it.persona then it.persona["personaId"] else Null
  }

  /**
   * A repeated persona's fields: a persona object replaces an empty one;
   * otherwise each field is filled only where currently None or empty, and
   * only with a value that is neither.
   */
  function MergedPersona(existing: map<seq<char>, Cell>, incoming: map<seq<char>, Cell>): map<seq<char>, Cell>
  {
    if |existing| == 0 then incoming
    else existing + map k | k in incoming && (k !in existing || IsMissing(existing[k])) && !IsMissing(incoming[k]) :: incoming[k]
  }

  /** A present field is never overwritten; a filled field takes the incoming value. */
  lemma MergedPersonaKeeps(existing: map<seq<char>, Cell>, incoming: map<seq<char>, Cell>, k: seq<char>)
    requires |existing| > 0
    ensures k in existing && !IsMissing(existing[k]) ==> MergedPersona(existing, incoming)[k] == existing[k]
    ensures k in MergedPersona(existing, incoming) <==> k in existing || (k in incoming && !IsMissing(incoming[k]))
    ensures (k in MergedPersona(existing, incoming) && k in existing && MergedPersona(existing, incoming)[k] != existing[k]) ==>
              (k in incoming && MergedPersona(existing, incoming)[k] == incoming[k] && IsMissing(existing[k]) && !IsMissing(incoming[k]))
  {
  }

  /** One listing item, as the merge loop handles it. */
  function ItemStep(st: Listing, nivel: int, it: Item): Listing
  {
    if it.NotAnItem? then st
    else if RolOf(it).Some? && RolOf(it).value in st.seenRoles then st
    else
      var seen := if RolOf(it).Some? then st.seenRoles + {RolOf(it).value} else st.seenRoles;
      var pid := PersonaIdCell(it);
      if pid == Null then
        st.(seenRoles := seen, errores := st.errores + [ListError(Listado, nivel, Str(""))])
      else if PyInt(pid).None? then
        st.(seenRoles := seen, errores := st.errores + [ListError(Listado, nivel, pid)])
      else
        var p := PyInt(pid).value;
        if p !in st.profesores then
          var e := Entry(it.persona, {nivel}, map[nivel := ParseActivo(it.activo)], None, nivel, Str(""), {}, {}, "");
          st.(seenRoles := seen, profesores := st.profesores[p := e], order := st.order + [p])
        else
          var e := st.profesores[p];
          var e' := e.(niveles := e.niveles + {nivel},
                       nivelesActivos := e.nivelesActivos[nivel := ParseActivo(it.activo)],
                       persona := MergedPersona(e.persona, it.persona));
          st.(seenRoles := seen, profesores := st.profesores[p := e'])
  }

  /** An item whose role id was already seen changes nothing. */
  lemma SeenRoleSkipped(st: Listing, nivel: int, it: Item)
    requires it.Item? && RolOf(it).Some? && RolOf(it).value in st.seenRoles
    ensures ItemStep(st, nivel, it) == st
  {
  }

  /**
   * An accepted item adds its level to its persona's levels and records its
   * activo flag for that level; no other persona changes, and only listing
   * errors are logged.
   */
  lemma ItemStepEffect(st: Listing, nivel: int, it: Item, levels: set<int>)
    requires OrderOk(st) && EntriesOk(st, levels) && nivel in levels
    ensures OrderOk(ItemStep(st, nivel, it)) && EntriesOk(ItemStep(st, nivel, it), levels)
    ensures st.profesores.Keys <= ItemStep(st, nivel, it).profesores.Keys
    ensures st.errores <= ItemStep(st, nivel, it).errores
    ensures forall k :: |st.errores| <= k < |ItemStep(st, nivel, it).errores| ==>
              ItemStep(st, nivel, it).errores[k].tipo == Listado
    ensures forall q :: q in st.profesores && q in ItemStep(st, nivel, it).profesores ==>
              st.profesores[q].niveles <= ItemStep(st, nivel, it).profesores[q].niveles
    ensures it.Item? && PersonaIdCell(it) != Null && PyInt(PersonaIdCell(it)).Some?
            && !(RolOf(it).Some? && RolOf(it).value in st.seenRoles) ==>
              var p := PyInt(PersonaIdCell(it)).value;
              var r := ItemStep(st, nivel, it);
              && p in r.profesores
              && r.profesores[p].niveles == (if p in st.profesores then st.profesores[p].niveles else {}) + {nivel}
              && r.profesores[p].nivelesActivos[nivel] == ParseActivo(it.activo)
              && (forall q :: q in st.profesores && q != p ==> r.profesores[q] == st.profesores[q])
  {
    var r := ItemStep(st, nivel, it);
    if it.Item? && !(RolOf(it).Some? && RolOf(it).value in st.seenRoles) && PersonaIdCell(it) != Null
       && PyInt(PersonaIdCell(it)).Some? {
      var p := PyInt(PersonaIdCell(it)).value;
      if p !in st.profesores {
        assert r.order == st.order + [p];
        forall i, j | 0 <= i < j < |r.order|
          ensures r.order[i] != r.order[j]
        {
          if j == |st.order| {
            assert r.order[i] == st.order[i];
          }
        }
        forall q
          ensures q in r.profesores <==> q in r.order
        {
          if q in st.order {
            var i :| 0 <= i < |st.order| && st.order[i] == q;
            assert r.order[i] == q;
          }
          if q in r.order && q != p {
            var i :| 0 <= i < |r.order| && r.order[i] == q;
            assert i < |st.order| && st.order[i] == q;
          }
        }
      }
    }
  }

  /** `persona` filled field by field from a repeated listing entry. */
  method FillPersona(existing: map<seq<char>, Cell>, incoming: map<seq<char>, Cell>) returns (r: map<seq<char>, Cell>)
    requires |existing| > 0
    ensures r == MergedPersona(existing, incoming)
  {
    r := existing;
    var rest := incoming.Keys;
    while rest != {}
      invariant rest <= incoming.Keys
      invariant forall k :: k in r <==> k in existing || (k in incoming && k !in rest && !IsMissing(incoming[k]))
      invariant forall k :: k in r ==>
                  r[k] == if k in incoming && k !in rest && (k !in existing || IsMissing(existing[k])) && !IsMissing(incoming[k])
                          then incoming[k] else existing[k]
      decreases |rest|
    {
      NoTextMemberEmpty(rest);
      var k :| k in rest;
      if (k !in r || IsMissing(r[k])) && !IsMissing(incoming[k]) {
        r := r[k := incoming[k]];
      }
      rest := rest - {k};
    }
    MergedPersonaPointwise(existing, incoming, r);
  }

  /** Extensionality for `MergedPersona`. */
  lemma MergedPersonaPointwise(existing: map<seq<char>, Cell>, incoming: map<seq<char>, Cell>, r: map<seq<char>, Cell>)
    requires |existing| > 0
    requires forall k :: k in r <==> k in existing || (k in incoming && !IsMissing(incoming[k]))
    requires forall k :: k in r ==>
               r[k] == if k in incoming && (k !in existing || IsMissing(existing[k])) && !IsMissing(incoming[k])
                       then incoming[k] else existing[k]
    ensures r == MergedPersona(existing, incoming)
  {
    var m := MergedPersona(existing, incoming);
    forall k
      ensures k in r.Keys <==> k in m.Keys
    {
    }
    assert r.Keys == m.Keys;
  }

  /** The listing loop's body for one item. */
  method HandleItem(st: Listing, nivel: int, it: Item) returns (r: Listing)
    ensures r == ItemStep(st, nivel, it)
  {
    r := st;
    if it.NotAnItem? {
      return;
    }
    var rol := RolOf(it);
    if rol.Some? {
      if rol.value in r.seenRoles {
        return;
      }
      r := r.(seenRoles := r.seenRoles + {rol.value});
    }
    var pid := PersonaIdCell(it);
    if pid == Null {
      r := r.(errores := r.errores + [ListError(Listado, nivel, Str(""))]);
      return;
    }
    var p := PyInt(pid);
    if p.None? {
      r := r.(errores := r.errores + [ListError(Listado, nivel, pid)]);
      return;
    }
    if p.value !in r.profesores {
      var e := Entry(it.persona, {nivel}, map[nivel := ParseActivo(it.activo)], None, nivel, Str(""), {}, {}, "");
      r := r.(profesores := r.profesores[p.value := e], order := r.order + [p.value]);
    } else {
      var e := r.profesores[p.value];
      var persona := it.persona;
      if |e.persona| > 0 {
        persona := FillPersona(e.persona, it.persona);
      }
      e := e.(niveles := e.niveles + {nivel}, nivelesActivos := e.nivelesActivos[nivel := ParseActivo(it.activo)],
              persona := persona);
      r := r.(profesores := r.profesores[p.value := e]);
    }
  }

  /** The items of one listing, handled in order. */
  function ItemsStep(st: Listing, nivel: int, items: seq<Item>): Listing
  {
    if items == [] then st
    else ItemStep(ItemsStep(st, nivel, items[..|items| - 1]), nivel, items[|items| - 1])
  }

  /**
   * The listing phase over the levels requested so far: the k-th request is
   * for level `contexts[k]`; a failed one logs a listing error.
   */
  function Listed(contexts: seq<int>, fetchList: (nat, int) -> Option<seq<Item>>): Listing
  {
    if contexts == [] then Listing(map[], [], {}, [])
    else
      var st := Listed(contexts[..|contexts| - 1], fetchList);
      var n := contexts[|contexts| - 1];
      match fetchList(|contexts| - 1, n)
      case None => st.(errores := st.errores + [ListError(Listado, n, Str(""))])
      case Some(items) => ItemsStep(st, n, items)
  }

  /** Handling a listing's items keeps the records well formed and logs only listing errors. */
  lemma {:induction false} ItemsStepOk(st: Listing, nivel: int, items: seq<Item>, levels: set<int>)
    requires OrderOk(st) && EntriesOk(st, levels) && nivel in levels
    ensures OrderOk(ItemsStep(st, nivel, items)) && EntriesOk(ItemsStep(st, nivel, items), levels)
    ensures st.errores <= ItemsStep(st, nivel, items).errores
    ensures forall k :: |st.errores| <= k < |ItemsStep(st, nivel, items).errores| ==>
              ItemsStep(st, nivel, items).errores[k].tipo == Listado
  {
    if items != [] {
      var mid := ItemsStep(st, nivel, items[..|items| - 1]);
      ItemsStepOk(st, nivel, items[..|items| - 1], levels);
      ItemStepEffect(mid, nivel, items[|items| - 1], levels);
    }
  }

  /** After the listing phase every record is well formed and every error is a listing error. */
  lemma {:induction false} ListedOk(contexts: seq<int>, fetchList: (nat, int) -> Option<seq<Item>>, levels: set<int>)
    requires forall k :: 0 <= k < |contexts| ==> contexts[k] in levels
    ensures OrderOk(Listed(contexts, fetchList)) && EntriesOk(Listed(contexts, fetchList), levels)
    ensures forall k :: 0 <= k < |Listed(contexts, fetchList).errores| ==> Listed(contexts, fetchList).errores[k].tipo == Listado
    ensures forall p :: p in Listed(contexts, fetchList).profesores ==>
              Listed(contexts, fetchList).profesores[p].detalle.None? && Listed(contexts, fetchList).profesores[p].estado == ""
  {
    if contexts != [] {
      var init := contexts[..|contexts| - 1];
      ListedOk(init, fetchList, levels);
      var n := contexts[|contexts| - 1];
      if fetchList(|contexts| - 1, n).Some? {
        ItemsStepOk(Listed(init, fetchList), n, fetchList(|contexts| - 1, n).value, levels);
        ItemsKeepsUndetailed(Listed(init, fetchList), n, fetchList(|contexts| - 1, n).value);
      }
    }
  }

  /** Listing items never set a detail or an Estado. */
  lemma {:induction false} ItemsKeepsUndetailed(st: Listing, nivel: int, items: seq<Item>)
    requires forall p :: p in st.profesores ==> st.profesores[p].detalle.None? && st.profesores[p].estado == ""
    ensures forall p :: p in ItemsStep(st, nivel, items).profesores ==>
              ItemsStep(st, nivel, items).profesores[p].detalle.None? && ItemsStep(st, nivel, items).profesores[p].estado == ""
  {
    if items != [] {
      ItemsKeepsUndetailed(st, nivel, items[..|items| - 1]);
    }
  }

  /** The listing phase: one request per level, its items merged in order. */
  method ListAll(contexts: seq<int>, fetchList: (nat, int) -> Option<seq<Item>>) returns (st: Listing)
    ensures st == Listed(contexts, fetchList)
  {
    st := Listing(map[], [], {}, []);
    var i := 0;
    while i < |contexts|
      invariant 0 <= i <= |contexts|
      invariant st == Listed(contexts[..i], fetchList)
    {
      assert contexts[..i + 1][..i] == contexts[..i];
      var n := contexts[i];
      var data := fetchList(i, n);
      if data.None? {
        st := st.(errores := st.errores + [ListError(Listado, n, Str(""))]);
      } else {
        var items := data.value;
        var j := 0;
        ghost var before := st;
        while j < |items|
          invariant 0 <= j <= |items|
          invariant st == ItemsStep(before, n, items[..j])
        {
          assert items[..j + 1][..j] == items[..j];
          st := HandleItem(st, n, items[j]);
          j := j + 1;
        }
        assert items[..j] == items;
      }
      i := i + 1;
    }
    assert contexts[..i] == contexts;
  }

  // ---------------------------------------------------------------- the detail pass

  /** The login a detail payload gives: `personaLogin.login or ""` when `personaLogin` is an object. */
  function LoginOf(d: Detail, current: Cell): Cell
  {
    match d.personaLogin
    case Some(c) => if PyTruthy(c) then c else Str("")
    case None => current
  }

  /**
   * One persona's detail request: a failure logs a detail error; a payload
   * sets the detail levels, folds its activo map in and derives Estado.
   */
  function DetailStep(st: Listing, p: int, d: Option<Detail>): Listing
    requires p in st.profesores
  {
    var e := st.profesores[p];
    match d
    case None => st.(errores := st.errores + [ListError(Detalle, e.nivelPreferido, Number(p))])
    case Some(det) =>
      var activos := MergedActivos(e.nivelesActivos, ActivosOf(det.niveles + det.personaRoles));
      var e' := e.(detalle := Some(det), login := LoginOf(det, e.login),
                   nivelesDetalle := ExtractedNiveles(det, false),
                   nivelesDetalleActivos := ExtractedNiveles(det, true),
                   nivelesActivos := activos, estado := DeriveEstado(activos));
      st.(profesores := st.profesores[p := e'])
  }

  /** The detail requests for the personas of `ps`, the k-th of them being request k. */
  function Detailed(st: Listing, ps: seq<int>, fetchDetail: (nat, int, int) -> Option<Detail>): (r: Listing)
    requires forall k :: 0 <= k < |ps| ==> ps[k] in st.profesores
    ensures r.profesores.Keys == st.profesores.Keys && r.order == st.order
  {
    if ps == [] then st
    else
      var mid := Detailed(st, ps[..|ps| - 1], fetchDetail);
      var p := ps[|ps| - 1];
      DetailStep(mid, p, fetchDetail(|ps| - 1, mid.profesores[p].nivelPreferido, p))
  }

  /** Estado is either not derived yet or derived from the persona's activo map. */
  ghost predicate EstadoOk(st: Listing) {
    forall p :: p in st.profesores ==>
      st.profesores[p].estado == "" || st.profesores[p].estado == DeriveEstado(st.profesores[p].nivelesActivos)
  }

  /**
   * `b` is `a` after detail requests: the same personas with the same listed
   * levels and preferred level, and no activo flag lost or downgraded.
   */
  ghost predicate Grown(a: Listing, b: Listing) {
    && a.profesores.Keys == b.profesores.Keys
    && a.errores <= b.errores
    && (forall k :: |a.errores| <= k < |b.errores| ==> b.errores[k].tipo == Detalle)
    && forall p :: p in a.profesores ==>
         && b.profesores[p].niveles == a.profesores[p].niveles
         && b.profesores[p].nivelPreferido == a.profesores[p].nivelPreferido
         && a.profesores[p].nivelesActivos.Keys <= b.profesores[p].nivelesActivos.Keys
         && (forall l :: l in a.profesores[p].nivelesActivos && a.profesores[p].nivelesActivos[l] ==>
                           b.profesores[p].nivelesActivos[l])
  }

  lemma GrownTrans(a: Listing, b: Listing, c: Listing)
    requires Grown(a, b) && Grown(b, c)
    ensures Grown(a, c)
  {
  }

  /** One detail request keeps the records well formed and only grows them. */
  lemma DetailStepOk(st: Listing, p: int, d: Option<Detail>)
    requires p in st.profesores && OrderOk(st) && EstadoOk(st)
    ensures OrderOk(DetailStep(st, p, d)) && EstadoOk(DetailStep(st, p, d)) && Grown(st, DetailStep(st, p, d))
  {
    if d.Some? {
      MergeNeverDowngrades(st.profesores[p].nivelesActivos, ActivosOf(d.value.niveles + d.value.personaRoles));
    }
  }

  /**
   * The detail pass keeps every record well formed, never downgrades an
   * activo flag, derives Estado from the final map, and logs only detail
   * errors.
   */
  lemma {:induction false} DetailedOk(st: Listing, ps: seq<int>, fetchDetail: (nat, int, int) -> Option<Detail>)
    requires forall k :: 0 <= k < |ps| ==> ps[k] in st.profesores
    requires OrderOk(st) && EstadoOk(st)
    ensures OrderOk(Detailed(st, ps, fetchDetail)) && EstadoOk(Detailed(st, ps, fetchDetail))
    ensures Grown(st, Detailed(st, ps, fetchDetail))
    ensures |Detailed(st, ps, fetchDetail).errores| <= |st.errores| + |ps|
  {
    if ps == [] {
      assert st.errores <= st.errores;
    } else {
      var init := ps[..|ps| - 1];
      DetailedOk(st, init, fetchDetail);
      var mid := Detailed(st, init, fetchDetail);
      var p := ps[|ps| - 1];
      DetailStepOk(mid, p, fetchDetail(|ps| - 1, mid.profesores[p].nivelPreferido, p));
      GrownTrans(st, mid, Detailed(st, ps, fetchDetail));
    }
  }

  /** The detail loop over the personas in insertion order. */
  method DetailAll(st0: Listing, fetchDetail: (nat, int, int) -> Option<Detail>) returns (st: Listing)
    requires forall k :: 0 <= k < |st0.order| ==> st0.order[k] in st0.profesores
    ensures st == Detailed(st0, st0.order, fetchDetail)
  {
    st := st0;
    var i := 0;
    while i < |st0.order|
      invariant 0 <= i <= |st0.order|
      invariant st == Detailed(st0, st0.order[..i], fetchDetail)
    {
      assert st0.order[..i + 1][..i] == st0.order[..i];
      var p := st0.order[i];
      assert p in st.profesores;
      var e := st.profesores[p];
      var d := fetchDetail(i, e.nivelPreferido, p);
      if d.None? {
        st := st.(errores := st.errores + [ListError(Detalle, e.nivelPreferido, Number(p))]);
      } else {
        var det := d.value;
        var fromDetail := ExtractNivelesActivosMap(det);
        var activos := MergeDetailActivos(e.nivelesActivos, fromDetail);
        var nivelesDetalle := ExtractNiveles(det, false);
        var nivelesDetalleActivos := ExtractNiveles(det, true);
        e := e.(detalle := Some(det), login := LoginOf(det, e.login), nivelesDetalle := nivelesDetalle,
                nivelesDetalleActivos := nivelesDetalleActivos, nivelesActivos := activos,
                estado := DeriveEstado(activos));
        st := st.(profesores := st.profesores[p := e]);
      }
      i := i + 1;
    }
    assert st0.order[..i] == st0.order;
  }

  // ---------------------------------------------------------------- results and summary

  /** One persona of the result list. */
  datatype ApiProfesor = ApiProfesor(personaId: int, nombre: Cell, apellidoPaterno: Cell, apellidoMaterno: Cell,
                                     sexo: Cell, dni: Cell, email: Cell, login: Cell, estado: seq<char>,
                                     nivelesPresentes: set<int>, nivelesActivos: map<int, bool>,
                                     nivelesDetalle: set<int>, nivelesDetalleActivos: set<int>)

  /** A record as the result list reports it, each field picked from the detail before the listing. */
  function ResultOf(p: int, e: Entry): ApiProfesor
  {
    var det := if e.detalle.Some? then Some(e.detalle.value.fields) else None;
    ApiProfesor(p, PickValue(det, e.persona, "nombre"), PickValue(det, e.persona, "apellidoPaterno"),
                PickValue(det, e.persona, "apellidoMaterno"), PickValue(det, e.persona, "sexoMoral"),
                PickValue(det, e.persona, "idOficial"), PickValue(det, e.persona, "email"),
                e.login, e.estado, e.niveles, e.nivelesActivos, e.nivelesDetalle, e.nivelesDetalleActivos)
  }

  datatype Summary = Summary(nivelesTotal: nat, nivelesError: nat, profesoresTotal: nat, detalleError: nat)

  /** The number of errors of one kind. */
  function CountTipo(es: seq<ListError>, t: ErrorTipo): (n: nat)
    ensures n <= |es|
  {
    if es == [] then 0 else CountTipo(es[..|es| - 1], t) + if es[|es| - 1].tipo == t then 1 else 0
  }

  /** Every error is a listing error or a detail error. */
  lemma {:induction false} CountTipoSplit(es: seq<ListError>)
    ensures CountTipo(es, Listado) + CountTipo(es, Detalle) == |es|
  {
    if es != [] {
      CountTipoSplit(es[..|es| - 1]);
    }
  }

  /** Counting over a prefix of one kind and a suffix of the other. */
  lemma {:induction false} CountTipoOfParts(es: seq<ListError>, n: nat, t: ErrorTipo)
    requires n <= |es|
    requires forall k :: 0 <= k < n ==> es[k].tipo == t
    requires forall k :: n <= k < |es| ==> es[k].tipo != t
    ensures CountTipo(es, t) == n
  {
    if |es| > n {
      CountTipoOfParts(es[..|es| - 1], n, t);
    } else if es != [] {
      CountTipoOfParts(es[..|es| - 1], n - 1, t);
    }
  }

  /** The level ids requested: those given, or every level when none are. */
  function Contexts(nivelIds: seq<int>): seq<int>
  {
    if nivelIds == [] then AllNiveles else nivelIds
  }

  /** The persona ids listed in insertion order are the recorded ones. */
  lemma OrderKeys(st: Listing)
    requires OrderOk(st)
    ensures forall k :: 0 <= k < |st.order| ==> st.order[k] in st.profesores
  {
    forall k | 0 <= k < |st.order|
      ensures st.order[k] in st.profesores
    {
      assert st.order[k] in st.order;
    }
  }

  /** The state after both passes. */
  ghost function Run(contexts: seq<int>, fetchList: (nat, int) -> Option<seq<Item>>,
                     fetchDetail: (nat, int, int) -> Option<Detail>): Listing
  {
    var listed := Listed(contexts, fetchList);
    ListedOk(contexts, fetchList, set n | n in contexts);
    OrderKeys(listed);
    Detailed(listed, listed.order, fetchDetail)
  }

  /**
   * After both passes: each persona recorded once, listed in at least one
   * requested level, with Estado derived from its final activo map or not at
   * all; the listing errors come first, then at most one detail error per
   * persona.
   */
  lemma RunOk(contexts: seq<int>, fetchList: (nat, int) -> Option<seq<Item>>,
              fetchDetail: (nat, int, int) -> Option<Detail>)
    ensures OrderOk(Run(contexts, fetchList, fetchDetail)) && EstadoOk(Run(contexts, fetchList, fetchDetail))
    ensures forall p :: p in Run(contexts, fetchList, fetchDetail).profesores ==>
              && Run(contexts, fetchList, fetchDetail).profesores[p].niveles != {}
              && forall n :: n in Run(contexts, fetchList, fetchDetail).profesores[p].niveles ==> n in contexts
    ensures Listed(contexts, fetchList).errores <= Run(contexts, fetchList, fetchDetail).errores
    ensures forall k :: 0 <= k < |Run(contexts, fetchList, fetchDetail).errores| ==>
              (Run(contexts, fetchList, fetchDetail).errores[k].tipo == Listado <==> k < |Listed(contexts, fetchList).errores|)
    ensures |Run(contexts, fetchList, fetchDetail).errores|
              <= |Listed(contexts, fetchList).errores| + |Run(contexts, fetchList, fetchDetail).order|
  {
    var levels := set n | n in contexts;
    var listed := Listed(contexts, fetchList);
    ListedOk(contexts, fetchList, levels);
    OrderKeys(listed);
    var st := Run(contexts, fetchList, fetchDetail);
    DetailedOk(listed, listed.order, fetchDetail);
    forall p | p in st.profesores
      ensures st.profesores[p].niveles != {}
      ensures forall n :: n in st.profesores[p].niveles ==> n in contexts
    {
      assert listed.profesores[p].nivelPreferido in listed.profesores[p].niveles;
    }
  }

  /** One result per persona, in insertion order. */
  method BuildResults(st: Listing) returns (resultados: seq<ApiProfesor>)
    requires forall k :: 0 <= k < |st.order| ==> st.order[k] in st.profesores
    ensures |resultados| == |st.order|
    ensures forall k :: 0 <= k < |st.order| ==> resultados[k] == ResultOf(st.order[k], st.profesores[st.order[k]])
  {
    resultados := [];
    var i := 0;
    while i < |st.order|
      invariant 0 <= i <= |st.order|
      invariant |resultados| == i
      invariant forall k :: 0 <= k < i ==> resultados[k] == ResultOf(st.order[k], st.profesores[st.order[k]])
    {
      var p := st.order[i];
      resultados := resultados + [ResultOf(p, st.profesores[p])];
      i := i + 1;
    }
  }

  /**
   * `listar_profesores_data`: the listing pass, the detail pass in insertion
   * order, then one result per persona.
   */
  method ListarProfesoresData(nivelIds: seq<int>, fetchList: (nat, int) -> Option<seq<Item>>,
                              fetchDetail: (nat, int, int) -> Option<Detail>)
    returns (resultados: seq<ApiProfesor>, summary: Summary, errores: seq<ListError>)
    ensures summary.nivelesTotal == |Contexts(nivelIds)|
    ensures summary.profesoresTotal == |resultados|
    ensures forall i, j :: 0 <= i < j < |resultados| ==> resultados[i].personaId != resultados[j].personaId
    ensures summary.nivelesError + summary.detalleError == |errores|
    ensures summary.detalleError <= summary.profesoresTotal
    ensures errores[..summary.nivelesError] == Listed(Contexts(nivelIds), fetchList).errores
    ensures forall k :: 0 <= k < |resultados| ==>
              && resultados[k].nivelesPresentes != {}
              && (forall n :: n in resultados[k].nivelesPresentes ==> n in Contexts(nivelIds))
              && (resultados[k].estado == "" || resultados[k].estado == DeriveEstado(resultados[k].nivelesActivos))
    ensures errores == Run(Contexts(nivelIds), fetchList, fetchDetail).errores
    ensures var r := Run(Contexts(nivelIds), fetchList, fetchDetail);
            |resultados| == |r.order| &&
            forall k :: 0 <= k < |r.order| ==> r.order[k] in r.profesores && resultados[k] == ResultOf(r.order[k], r.profesores[r.order[k]])
  {
    var contexts := Contexts(nivelIds);
    var listed := ListAll(contexts, fetchList);
    ListedOk(contexts, fetchList, set n | n in contexts);
    OrderKeys(listed);
    var st := DetailAll(listed, fetchDetail);
    RunOk(contexts, fetchList, fetchDetail);
    assert st == Run(contexts, fetchList, fetchDetail);
    OrderKeys(st);
    errores := st.errores;
    CountTipoOfParts(errores, |listed.errores|, Listado);
    CountTipoSplit(errores);
    resultados := BuildResults(st);
    ResultsFacts(st, resultados, contexts);
    summary := Summary(|contexts|, CountTipo(errores, Listado), |resultados|, CountTipo(errores, Detalle));
  }

  /** What the result list inherits from the records. */
  lemma ResultsFacts(st: Listing, resultados: seq<ApiProfesor>, contexts: seq<int>)
    requires OrderOk(st) && EstadoOk(st)
    requires forall p :: p in st.profesores ==>
               st.profesores[p].niveles != {} && forall n :: n in st.profesores[p].niveles ==> n in contexts
    requires forall k :: 0 <= k < |st.order| ==> st.order[k] in st.profesores
    requires |resultados| == |st.order|
    requires forall k :: 0 <= k < |st.order| ==> resultados[k] == ResultOf(st.order[k], st.profesores[st.order[k]])
    ensures forall i, j :: 0 <= i < j < |resultados| ==> resultados[i].personaId != resultados[j].personaId
    ensures forall k :: 0 <= k < |resultados| ==>
              && resultados[k].nivelesPresentes != {}
              && (forall n :: n in resultados[k].nivelesPresentes ==> n in contexts)
              && (resultados[k].estado == "" || resultados[k].estado == DeriveEstado(resultados[k].nivelesActivos))
  {
  }
}
