/**
 * Student listing (santillana_format/alumnos.py): the id-list parser, the
 * output file name, the level, grade and group tables, the request contexts
 * (one per school, level, grade and group), the flattening of one listed
 * student and the per-context loop of `listar_alumnos`. Each listing request
 * is an oracle indexed by the request's position in the run.
 */
module Alumnos {
  import opened Text

  // ---------------------------------------------------------------- tables

  /** `NIVEL_MAP`. */
  const NivelMap: map<seq<char>, int> := map["Inicial" := 38, "Primaria" := 39, "Secundaria" := 40]

  /** The level ids of `NIVEL_MAP`, in its order: the levels listed when none is given. */
  const DefaultNiveles: seq<int> := [38, 39, 40]

  /** The grade ids of `GRADOS_POR_NIVEL`, per level, in the table's order (the grade names are not modelled). */
  const GradosPorNivel: map<int, seq<int>> := map[
    38 := [113, 114, 115, 116, 117, 118],
    39 := [119, 120, 121, 122, 123],
    40 := [126, 127, 128, 129, 130]]

  /** `GRADOS_POR_NIVEL.get(nivel, {})` for a grade table: no grade for a level not in the table. */
  function Grados(table: map<int, seq<int>>, nivel: int): seq<int> {
    if nivel in table then table[nivel] else []
  }

  /** `GRUPO_ID_TO_LETRA`. */
  const GrupoIdToLetra: map<int, char> := map[
    661 := 'A', 662 := 'B', 663 := 'C', 664 := 'D', 665 := 'E', 666 := 'F',
    667 := 'G', 668 := 'H', 669 := 'I', 670 := 'J', 671 := 'K']

  /** `GRUPO_LETRA_TO_ID`, the table the source builds by inverting `GRUPO_ID_TO_LETRA`. */
  const GrupoLetraToId: map<char, int> := map[
    'A' := 661, 'B' := 662, 'C' := 663, 'D' := 664, 'E' := 665, 'F' := 666,
    'G' := 667, 'H' := 668, 'I' := 669, 'J' := 670, 'K' := 671]

  /** The group ids, in the table's order: the groups listed when none is given. */
  const DefaultGrupos: seq<int> := [661, 662, 663, 664, 665, 666, 667, 668, 669, 670, 671]

  /** The ids 661 to 671 are the letters `A` to `K`, in order. */
  lemma GrupoLetters()
    ensures forall id :: id in GrupoIdToLetra <==> 661 <= id <= 671
    ensures forall id :: id in GrupoIdToLetra ==> GrupoIdToLetra[id] == (('A' as int) + id - 661) as char
  {
  }

  /** The two group tables are inverse to each other. */
  lemma GrupoTablesInverse()
    ensures forall id :: id in GrupoIdToLetra ==> GrupoIdToLetra[id] in GrupoLetraToId && GrupoLetraToId[GrupoIdToLetra[id]] == id
    ensures forall l :: l in GrupoLetraToId ==> GrupoLetraToId[l] in GrupoIdToLetra && GrupoIdToLetra[GrupoLetraToId[l]] == l
    ensures forall l :: l in GrupoLetraToId <==> 'A' <= l <= 'K'
  {
    GrupoLetters();
  }

  /** The default lists are the values of `NIVEL_MAP` and the keys of `GRUPO_ID_TO_LETRA`. */
  lemma DefaultsAreTables()
    ensures forall n :: n in DefaultNiveles <==> n in NivelMap.Values
    ensures forall g :: g in DefaultGrupos <==> g in GrupoIdToLetra
  {
    GrupoLetters();
    assert NivelMap["Inicial"] == 38 && NivelMap["Primaria"] == 39 && NivelMap["Secundaria"] == 40;
  }

  // ---------------------------------------------------------------- file name

  /** `_`-joined decimal ids. */
  function JoinIds(ids: seq<int>): seq<char> {
    Join(seq(|ids|, k requires 0 <= k < |ids| => IntToString(ids[k])), "_")
  }

  /** `build_alumnos_filename`. */
  function AlumnosFilename(colegioIds: seq<int>): seq<char> {
    if colegioIds == [] then "alumnos.xlsx"
    else
      var ids := SortedDistinct(colegioIds);
      if |ids| == 1 then "alumnos_" + IntToString(ids[0]) + ".xlsx"
      else "alumnos_" + JoinIds(ids) + ".xlsx"
  }

  predicate Underscore(c: char) { c == '_' }

  /** The part of the name between `alumnos_` and `.xlsx`, split on `_`, reads back as the distinct ids in ascending order. */
  lemma AlumnosFilenameRoundTrip(colegioIds: seq<int>)
    requires colegioIds != []
    ensures var name := AlumnosFilename(colegioIds);
      && |name| > 13 && name[..8] == "alumnos_" && name[|name| - 5..] == ".xlsx"
      && var parts := Tokens(name[8..|name| - 5], Underscore);
      && |parts| == |SortedDistinct(colegioIds)|
      && forall k :: 0 <= k < |parts| ==> ParseInt(parts[k]) == Some(SortedDistinct(colegioIds)[k])
  {
    var ids := SortedDistinct(colegioIds);
    var x := colegioIds[|colegioIds| - 1];
    assert x in colegioIds;
    var ts := seq(|ids|, k requires 0 <= k < |ids| => IntToString(ids[k]));
    forall k | 0 <= k < |ts| ensures ts[k] != [] && forall i :: 0 <= i < |ts[k]| ==> !Underscore(ts[k][i]) {
      IntToStringHasNoUnderscore(ids[k]);
    }
    assert WellFormedTokens(ts, Underscore);
    TokensOfJoin(ts, '_', Underscore);
    var name := AlumnosFilename(colegioIds);
    if |ids| == 1 {
      assert ts == [IntToString(ids[0])];
      assert Join(ts, "_") == IntToString(ids[0]);
    }
    assert name[8..|name| - 5] == Join(ts, "_");
    forall k | 0 <= k < |ts| ensures ParseInt(ts[k]) == Some(ids[k]) {
      ParseIntOfIntToString(ids[k]);
    }
  }

  lemma IntToStringHasNoUnderscore(n: int)
    ensures forall i :: 0 <= i < |IntToString(n)| ==> IntToString(n)[i] != '_'
  {
    var r := IntToString(n);
    if n < 0 {
      assert r[1..] == NatToString(-n);
      assert forall i :: 1 <= i < |r| ==> r[i] == r[1..][i - 1];
    }
  }

  // ---------------------------------------------------------------- id lists

  /** The separators of `re.split(r"[\s,]+", ...)`. */
  predicate IdSeparator(c: char) { IsSpace(c) || c == ',' }

  /** Python's `str.isdigit` on ASCII text. */
  predicate IsDigitText(s: seq<char>) { s != [] && AllDigits(s) }

  /** The position of the first `-` of a token that has one. */
  function FirstDash(t: seq<char>): (i: nat)
    requires '-' in t
    ensures i < |t| && t[i] == '-' && '-' !in t[..i]
  {
    if t[0] == '-' then 0
    else
      var i := 1 + FirstDash(t[1..]);
      assert t[1..][..i - 1] == t[1..i];
      assert t[..i] == [t[0]] + t[1..i];
      i
  }

  /** `range(a, b + 1)`. */
  function Range(a: int, b: int): seq<int> {
    if a > b then [] else seq(b - a + 1, k requires 0 <= k < b - a + 1 => a + k)
  }

  lemma RangeMeaning(a: int, b: int, x: int)
    ensures x in Range(a, b) <==> a <= x <= b
  {
    if a <= x <= b {
      assert Range(a, b)[x - a] == x;
    }
  }

  /** The ids of one token are those it names. */
  lemma TokenIdsMeaning(t: seq<char>, x: int)
    ensures x in TokenIds(t) <==> Names(t, x)
  {
    if '-' in t {
      var i := FirstDash(t);
      if IsDigitText(t[..i]) && IsDigitText(t[i + 1..]) {
        RangeMeaning(DigitsValue(t[..i]), DigitsValue(t[i + 1..]), x);
      }
    }
  }

  /** The first dash of `pre + "-" + post` is the one after `pre` when `pre` has none. */
  lemma {:induction false} FirstDashAfter(pre: seq<char>, post: seq<char>)
    requires '-' !in pre
    ensures FirstDash(pre + "-" + post) == |pre|
  {
    var t := pre + "-" + post;
    if pre != [] {
      assert t[0] == pre[0];
      assert t[1..] == pre[1..] + "-" + post;
      FirstDashAfter(pre[1..], post);
    }
  }

  /** The ids one token contributes: a range `a-b` of digit texts, or a digit text; nothing otherwise. */
  function TokenIds(t: seq<char>): seq<int> {
    if '-' in t then
      var i := FirstDash(t);
      if IsDigitText(t[..i]) && IsDigitText(t[i + 1..]) then Range(DigitsValue(t[..i]), DigitsValue(t[i + 1..])) else []
    else if IsDigitText(t) then [DigitsValue(t)]
    else []
  }

  /** The ids the tokens contribute, in order, with repeats. */
  function TokensIds(ts: seq<seq<char>>): seq<int> {
    if ts == [] then [] else TokensIds(ts[..|ts| - 1]) + TokenIds(ts[|ts| - 1])
  }

  /** `parse_id_list`. */
  function IdList(text: seq<char>): seq<int> {
    if text == [] then [] else SortedDistinct(TokensIds(Tokens(text, IdSeparator)))
  }

  /** What a token names: its value if it is a digit text, every id of its range if it is `a-b`. */
  predicate Names(t: seq<char>, x: int) {
    if '-' in t then
      var i := FirstDash(t);
      IsDigitText(t[..i]) && IsDigitText(t[i + 1..]) && DigitsValue(t[..i]) <= x <= DigitsValue(t[i + 1..])
    else IsDigitText(t) && x == DigitsValue(t)
  }

  lemma {:induction false} TokensIdsMeaning(ts: seq<seq<char>>, x: int)
    ensures x in TokensIds(ts) <==> exists t :: t in ts && x in TokenIds(t)
  {
    if ts != [] {
      var n := |ts| - 1;
      var pre := ts[..n];
      TokensIdsMeaning(pre, x);
      assert ts == pre + [ts[n]];
    }
  }

  /**
   * The parsed list is strictly increasing and holds exactly the ids some
   * token names; a range `a-b` with `a > b` and a non-numeric token name
   * nothing.
   */
  lemma IdListMeaning(text: seq<char>, x: int)
    ensures IsSorted(IdList(text))
    ensures x in IdList(text) <==> exists t :: t in Tokens(text, IdSeparator) && Names(t, x)
  {
    TokensIdsMeaning(Tokens(text, IdSeparator), x);
    forall t | t in Tokens(text, IdSeparator) ensures x in TokenIds(t) <==> Names(t, x) {
      TokenIdsMeaning(t, x);
    }
    if text == [] {
      assert Tokens(text, IdSeparator) == [];
    }
  }

  /** A range token whose start exceeds its end names nothing. */
  lemma EmptyRange(a: nat, b: nat, x: int)
    requires a > b
    ensures !Names(NatToString(a) + "-" + NatToString(b), x)
  {
    var t := NatToString(a) + "-" + NatToString(b);
    var s := NatToString(a);
    assert '-' !in s by {
      assert forall i :: 0 <= i < |s| ==> IsDigit(s[i]);
    }
    FirstDashAfter(s, NatToString(b));
    assert t[..|s|] == s && t[|s| + 1..] == NatToString(b);
    NatToStringValue(a);
    NatToStringValue(b);
  }

  /** The ids written as decimals separated by commas parse back to the same ids, once listed in ascending order. */
  lemma IdListOfRendering(ids: seq<nat>)
    requires forall i, j :: 0 <= i < j < |ids| ==> ids[i] < ids[j]
    ensures IdList(Join(seq(|ids|, k requires 0 <= k < |ids| => NatToString(ids[k])), ",")) == ids
  {
    var ts := seq(|ids|, k requires 0 <= k < |ids| => NatToString(ids[k]));
    var text := Join(ts, ",");
    forall k | 0 <= k < |ts| ensures ts[k] != [] && forall i :: 0 <= i < |ts[k]| ==> !IdSeparator(ts[k][i]) {
      assert AllDigits(ts[k]);
    }
    TokensOfJoin(ts, ',', IdSeparator);
    var r := IdList(text);
    forall x ensures x in r <==> x in ids {
      IdListMeaning(text, x);
      if x in ids {
        var k :| 0 <= k < |ids| && ids[k] == x;
        NamesOfNumber(ids[k]);
        assert ts[k] in ts && Names(ts[k], x);
      }
      if exists t :: t in ts && Names(t, x) {
        var t :| t in ts && Names(t, x);
        var k :| 0 <= k < |ts| && ts[k] == t;
        NamesOfNumber(ids[k]);
        assert x == ids[k];
      }
    }
    IdListMeaning(text, 0);
    var asInts: seq<int> := ids;
    assert IsSorted(asInts);
    SortedUnique(r, asInts);
  }

  /** A number's decimal text names that number alone. */
  lemma NamesOfNumber(n: nat)
    ensures forall x :: Names(NatToString(n), x) <==> x == n
  {
    var s := NatToString(n);
    assert '-' !in s by {
      assert forall i :: 0 <= i < |s| ==> IsDigit(s[i]);
    }
    NatToStringValue(n);
  }

  /** `parse_id_list`: the token loop collects the ids, then they are de-duplicated and sorted. */
  method ParseIdList(text: seq<char>) returns (ids: seq<int>)
    ensures ids == IdList(text)
  {
    if text == [] {
      return [];
    }
    var tokens := Tokens(text, IdSeparator);
    var collected: seq<int> := [];
    for k := 0 to |tokens|
      invariant collected == TokensIds(tokens[..k])
    {
      assert tokens[..k + 1][..k] == tokens[..k];
      var token := tokens[k];
      if '-' in token {
        var i := FirstDash(token);
        var inicio, fin := token[..i], token[i + 1..];
        if IsDigitText(inicio) && IsDigitText(fin) {
          collected := collected + Range(DigitsValue(inicio), DigitsValue(fin));
        }
        continue;
      }
      if IsDigitText(token) {
        collected := collected + [DigitsValue(token)];
      }
    }
    assert tokens[..|tokens|] == tokens;
    ids := SortedDistinct(collected);
  }

  // ---------------------------------------------------------------- request contexts

  /** One listing request: school, level, grade and group, with the company and cycle ids. */
  datatype Context = Context(colegio: int, nivel: int, grado: int, grupo: int, empresa: int, ciclo: int)

  function ForGrupos(colegio: int, nivel: int, grado: int, grupos: seq<int>, empresa: int, ciclo: int): (cs: seq<Context>)
    ensures |cs| == |grupos|
    ensures forall k :: 0 <= k < |grupos| ==> cs[k] == Context(colegio, nivel, grado, grupos[k], empresa, ciclo)
  {
    seq(|grupos|, k requires 0 <= k < |grupos| => Context(colegio, nivel, grado, grupos[k], empresa, ciclo))
  }

  function ForGrados(colegio: int, nivel: int, grados: seq<int>, grupos: seq<int>, empresa: int, ciclo: int): seq<Context> {
    if grados == [] then []
    else
      var n := |grados| - 1;
      ForGrados(colegio, nivel, grados[..n], grupos, empresa, ciclo) + ForGrupos(colegio, nivel, grados[n], grupos, empresa, ciclo)
  }

  function ForNiveles(table: map<int, seq<int>>, colegio: int, niveles: seq<int>, grupos: seq<int>, empresa: int, ciclo: int): seq<Context> {
    if niveles == [] then []
    else
      var n := |niveles| - 1;
      ForNiveles(table, colegio, niveles[..n], grupos, empresa, ciclo) + ForGrados(colegio, niveles[n], Grados(table, niveles[n]), grupos, empresa, ciclo)
  }

  /** The contexts of `build_request_contexts`, school by school, level by level, grade by grade, group by group. */
  function Contexts(table: map<int, seq<int>>, colegios: seq<int>, niveles: seq<int>, grupos: seq<int>, empresa: int, ciclo: int): seq<Context> {
    if colegios == [] then []
    else
      var n := |colegios| - 1;
      Contexts(table, colegios[..n], niveles, grupos, empresa, ciclo) + ForNiveles(table, colegios[n], niveles, grupos, empresa, ciclo)
  }

  /** The number of grades of the listed levels. */
  function GradeCount(table: map<int, seq<int>>, niveles: seq<int>): nat {
    if niveles == [] then 0 else GradeCount(table, niveles[..|niveles| - 1]) + |Grados(table, niveles[|niveles| - 1])|
  }

  lemma Distribute(a: int, b: int, c: int)
    ensures (a + b) * c == a * c + b * c
  {
  }

  lemma {:induction false} ForGradosCount(colegio: int, nivel: int, grados: seq<int>, grupos: seq<int>, empresa: int, ciclo: int)
    ensures |ForGrados(colegio, nivel, grados, grupos, empresa, ciclo)| == |grados| * |grupos|
  {
    if grados != [] {
      var n := |grados| - 1;
      ForGradosCount(colegio, nivel, grados[..n], grupos, empresa, ciclo);
      Distribute(n, 1, |grupos|);
    }
  }

  lemma {:induction false} ForNivelesCount(table: map<int, seq<int>>, colegio: int, niveles: seq<int>, grupos: seq<int>, empresa: int, ciclo: int)
    ensures |ForNiveles(table, colegio, niveles, grupos, empresa, ciclo)| == GradeCount(table, niveles) * |grupos|
  {
    if niveles != [] {
      var n := |niveles| - 1;
      ForNivelesCount(table, colegio, niveles[..n], grupos, empresa, ciclo);
      ForGradosCount(colegio, niveles[n], Grados(table, niveles[n]), grupos, empresa, ciclo);
      Distribute(GradeCount(table, niveles[..n]), |Grados(table, niveles[n])|, |grupos|);
    }
  }

  /** There are `schools × grades of the levels × groups` contexts. */
  lemma {:induction false} ContextsCount(table: map<int, seq<int>>, colegios: seq<int>, niveles: seq<int>, grupos: seq<int>, empresa: int, ciclo: int)
    ensures |Contexts(table, colegios, niveles, grupos, empresa, ciclo)| == |colegios| * (GradeCount(table, niveles) * |grupos|)
  {
    if colegios != [] {
      var n := |colegios| - 1;
      ContextsCount(table, colegios[..n], niveles, grupos, empresa, ciclo);
      ForNivelesCount(table, colegios[n], niveles, grupos, empresa, ciclo);
      var m := GradeCount(table, niveles) * |grupos|;
      Distribute(n, 1, m);
    }
  }

  lemma {:induction false} ForGradosMeaning(colegio: int, nivel: int, grados: seq<int>, grupos: seq<int>, empresa: int, ciclo: int, c: Context)
    ensures c in ForGrados(colegio, nivel, grados, grupos, empresa, ciclo) <==>
              c.colegio == colegio && c.nivel == nivel && c.grado in grados && c.grupo in grupos && c.empresa == empresa && c.ciclo == ciclo
  {
    if grados != [] {
      var n := |grados| - 1;
      ForGradosMeaning(colegio, nivel, grados[..n], grupos, empresa, ciclo, c);
      assert grados == grados[..n] + [grados[n]];
      assert c in ForGrupos(colegio, nivel, grados[n], grupos, empresa, ciclo) <==>
               c.colegio == colegio && c.nivel == nivel && c.grado == grados[n] && c.grupo in grupos && c.empresa == empresa && c.ciclo == ciclo;
    }
  }

  lemma {:induction false} ForNivelesMeaning(table: map<int, seq<int>>, colegio: int, niveles: seq<int>, grupos: seq<int>, empresa: int, ciclo: int, c: Context)
    ensures c in ForNiveles(table, colegio, niveles, grupos, empresa, ciclo) <==>
              c.colegio == colegio && c.nivel in niveles && c.grado in Grados(table, c.nivel) && c.grupo in grupos && c.empresa == empresa && c.ciclo == ciclo
  {
    if niveles != [] {
      var n := |niveles| - 1;
      ForNivelesMeaning(table, colegio, niveles[..n], grupos, empresa, ciclo, c);
      ForGradosMeaning(colegio, niveles[n], Grados(table, niveles[n]), grupos, empresa, ciclo, c);
      assert niveles == niveles[..n] + [niveles[n]];
    }
  }

  /**
   * The contexts are the product school × level × grade of that level ×
   * group: a context is listed iff each of its parts is, a level missing
   * from the table contributing no grade.
   */
  lemma {:induction false} ContextsMeaning(table: map<int, seq<int>>, colegios: seq<int>, niveles: seq<int>, grupos: seq<int>, empresa: int, ciclo: int, c: Context)
    ensures c in Contexts(table, colegios, niveles, grupos, empresa, ciclo) <==>
              c.colegio in colegios && c.nivel in niveles && c.grado in Grados(table, c.nivel) && c.grupo in grupos && c.empresa == empresa && c.ciclo == ciclo
  {
    if colegios != [] {
      var n := |colegios| - 1;
      ContextsMeaning(table, colegios[..n], niveles, grupos, empresa, ciclo, c);
      ForNivelesMeaning(table, colegios[n], niveles, grupos, empresa, ciclo, c);
      assert colegios == colegios[..n] + [colegios[n]];
    }
  }

  /** A level missing from the grade table adds no context, wherever it is listed. */
  lemma {:induction false} UnknownNivelAddsNothing(table: map<int, seq<int>>, colegios: seq<int>, niveles: seq<int>, nivel: int, grupos: seq<int>, empresa: int, ciclo: int)
    requires nivel !in table
    ensures Contexts(table, colegios, niveles + [nivel], grupos, empresa, ciclo) == Contexts(table, colegios, niveles, grupos, empresa, ciclo)
  {
    if colegios != [] {
      var n := |colegios| - 1;
      UnknownNivelAddsNothing(table, colegios[..n], niveles, nivel, grupos, empresa, ciclo);
      var ns := niveles + [nivel];
      assert ns[..|niveles|] == niveles && ns[|niveles|] == nivel;
      assert ForGrados(colegios[n], nivel, Grados(table, nivel), grupos, empresa, ciclo) == [];
      assert ForNiveles(table, colegios[n], ns, grupos, empresa, ciclo) == ForNiveles(table, colegios[n], niveles, grupos, empresa, ciclo);
    }
  }

  /** The two inner loops of `build_request_contexts`: every grade of the level, then every group. */
  method AppendNivel(table: map<int, seq<int>>, contexts: seq<Context>, colegio: int, nivel: int, grupos: seq<int>, empresa: int, ciclo: int)
    returns (contexts': seq<Context>)
    ensures contexts' == contexts + ForGrados(colegio, nivel, Grados(table, nivel), grupos, empresa, ciclo)
  {
    contexts' := contexts;
    var grados := Grados(table, nivel);
    for k := 0 to |grados|
      invariant contexts' == contexts + ForGrados(colegio, nivel, grados[..k], grupos, empresa, ciclo)
    {
      assert grados[..k + 1][..k] == grados[..k];
      var grado := grados[k];
      ghost var atGrado := contexts';
      for m := 0 to |grupos|
        invariant contexts' == atGrado + ForGrupos(colegio, nivel, grado, grupos[..m], empresa, ciclo)
      {
        assert ForGrupos(colegio, nivel, grado, grupos[..m + 1], empresa, ciclo)
            == ForGrupos(colegio, nivel, grado, grupos[..m], empresa, ciclo) + [Context(colegio, nivel, grado, grupos[m], empresa, ciclo)];
        contexts' := contexts' + [Context(colegio, nivel, grado, grupos[m], empresa, ciclo)];
      }
      assert grupos[..|grupos|] == grupos;
    }
    assert grados[..|grados|] == grados;
  }

  /** The level loop of `build_request_contexts` for one school. */
  method AppendColegio(table: map<int, seq<int>>, contexts: seq<Context>, colegio: int, niveles: seq<int>, grupos: seq<int>, empresa: int, ciclo: int)
    returns (contexts': seq<Context>)
    ensures contexts' == contexts + ForNiveles(table, colegio, niveles, grupos, empresa, ciclo)
  {
    contexts' := contexts;
    for j := 0 to |niveles|
      invariant contexts' == contexts + ForNiveles(table, colegio, niveles[..j], grupos, empresa, ciclo)
    {
      assert niveles[..j + 1][..j] == niveles[..j];
      contexts' := AppendNivel(table, contexts', colegio, niveles[j], grupos, empresa, ciclo);
    }
    assert niveles[..|niveles|] == niveles;
  }

  /** `build_request_contexts`: school by school, then level, grade and group. */
  method BuildRequestContexts(colegios: seq<int>, niveles: seq<int>, grupos: seq<int>, empresa: int, ciclo: int)
    returns (contexts: seq<Context>)
    ensures contexts == Contexts(GradosPorNivel, colegios, niveles, grupos, empresa, ciclo)
  {
    contexts := [];
    for i := 0 to |colegios|
      invariant contexts == Contexts(GradosPorNivel, colegios[..i], niveles, grupos, empresa, ciclo)
    {
      assert colegios[..i + 1][..i] == colegios[..i];
      contexts := AppendColegio(GradosPorNivel, contexts, colegios[i], niveles, grupos, empresa, ciclo);
    }
    assert colegios[..|colegios|] == colegios;
  }

  // ---------------------------------------------------------------- one student

  /** A listed student: its scalar fields and its nested `persona`, `nivel`, `grado` and `grupo` objects (empty when absent or empty). */
  datatype Item = Item(fields: map<seq<char>, Cell>, persona: map<seq<char>, Cell>,
                       nivel: map<seq<char>, Cell>, grado: map<seq<char>, Cell>, grupo: map<seq<char>, Cell>)

  /** A row of the student sheet, one field per column of `ALUMNO_COLUMNS`, in its order. */
  datatype AlumnoRow = AlumnoRow(
    colegioId: int, nivelId: Cell, nivel: Cell, gradoId: Cell, grado: Cell, grupoId: Cell, grupo: Cell,
    grupoClave: Cell, alumnoId: Cell, personaId: Cell, nombreCompleto: Cell, nombre: Cell,
    apellidoPaterno: Cell, apellidoMaterno: Cell, sexo: Cell, idOficial: Cell, fechaNacimiento: Cell,
    activo: Cell, alumnoClave: Cell, fechaDesde: Cell, fechaValidado: Cell)

  /** `dict.get(key, default)`. */
  function Get(m: map<seq<char>, Cell>, key: seq<char>, default: Cell): Cell {
    if key in m then m[key] else default
  }

  /** `_flatten_alumno`. */
  function Flatten(item: Item, ctx: Context): AlumnoRow {
    var blank := Str("");
    AlumnoRow(
      ctx.colegio,
      Get(item.nivel, "nivelId", Number(ctx.nivel)), Get(item.nivel, "nivel", blank),
      Get(item.grado, "gradoId", Number(ctx.grado)), Get(item.grado, "grado", blank),
      Get(item.grupo, "grupoId", Number(ctx.grupo)), Get(item.grupo, "grupo", blank), Get(item.grupo, "grupoClave", blank),
      Get(item.fields, "alumnoId", blank), Get(item.persona, "personaId", blank),
      Get(item.persona, "nombreCompleto", blank), Get(item.persona, "nombre", blank),
      Get(item.persona, "apellidoPaterno", blank), Get(item.persona, "apellidoMaterno", blank),
      Get(item.persona, "sexoMoral", blank), Get(item.persona, "idOficial", blank),
      Get(item.persona, "fechaNacimiento", blank),
      Get(item.fields, "activo", blank), Get(item.fields, "alumnoClave", blank),
      Get(item.fields, "fechaDesde", blank), Get(item.fields, "fechaValidado", blank))
  }

  /**
   * The school id is always the request's; the level, grade and group ids
   * are the nested object's when it has one and the request's otherwise.
   */
  lemma FlattenFallsBack(item: Item, ctx: Context)
    ensures Flatten(item, ctx).colegioId == ctx.colegio
    ensures "nivelId" !in item.nivel ==> Flatten(item, ctx).nivelId == Number(ctx.nivel)
    ensures "gradoId" !in item.grado ==> Flatten(item, ctx).gradoId == Number(ctx.grado)
    ensures "grupoId" !in item.grupo ==> Flatten(item, ctx).grupoId == Number(ctx.grupo)
    ensures "nivelId" in item.nivel ==> Flatten(item, ctx).nivelId == item.nivel["nivelId"]
    ensures "gradoId" in item.grado ==> Flatten(item, ctx).gradoId == item.grado["gradoId"]
    ensures "grupoId" in item.grupo ==> Flatten(item, ctx).grupoId == item.grupo["grupoId"]
  {
  }

  // ---------------------------------------------------------------- the listing loop

  /** What `_fetch_alumnos` returns: the students, an error text (empty for none) and the status code if a response came. */
  datatype Fetch = Fetch(data: seq<Item>, error: seq<char>, status: Option<int>)

  /** A row of the error sheet (the request URL is not modelled). */
  datatype ErrorRow = ErrorRow(colegioId: int, nivelId: int, gradoId: int, grupoId: int, status: Option<int>, error: seq<char>)

  datatype Outcome = Outcome(alumnos: seq<AlumnoRow>, errores: seq<ErrorRow>)

  function FlattenAll(items: seq<Item>, ctx: Context): (rows: seq<AlumnoRow>)
    ensures |rows| == |items|
    ensures forall k :: 0 <= k < |items| ==> rows[k] == Flatten(items[k], ctx)
  {
    seq(|items|, k requires 0 <= k < |items| => Flatten(items[k], ctx))
  }

  /** One request of the loop, the `position`-th (counted from 1). */
  function Request(o: Outcome, ctx: Context, position: nat, fetch: (nat, Context) -> Fetch): Outcome {
    var f := fetch(position, ctx);
    if f.error != [] then
      o.(errores := o.errores + [ErrorRow(ctx.colegio, ctx.nivel, ctx.grado, ctx.grupo, f.status, f.error)])
    else o.(alumnos := o.alumnos + FlattenAll(f.data, ctx))
  }

  /** The outcome of the requests for the contexts, in order. */
  function Collect(contexts: seq<Context>, fetch: (nat, Context) -> Fetch): Outcome {
    if contexts == [] then Outcome([], [])
    else
      var n := |contexts| - 1;
      Request(Collect(contexts[..n], fetch), contexts[n], n + 1, fetch)
  }

  /** There are no more error rows than requests, and none iff no request failed. */
  lemma {:induction false} CollectErrorCount(contexts: seq<Context>, fetch: (nat, Context) -> Fetch)
    ensures |Collect(contexts, fetch).errores| <= |contexts|
    ensures Collect(contexts, fetch).errores == [] <==> forall i :: 0 <= i < |contexts| ==> fetch(i + 1, contexts[i]).error == []
  {
    if contexts != [] {
      var n := |contexts| - 1;
      CollectErrorCount(contexts[..n], fetch);
      assert forall i :: 0 <= i < n ==> contexts[..n][i] == contexts[i];
    }
  }

  /** Whether `e` reports the failed `i`-th request, for its own context and with its error text and status. */
  predicate Reports(e: ErrorRow, contexts: seq<Context>, i: int, fetch: (nat, Context) -> Fetch) {
    0 <= i < |contexts| && fetch(i + 1, contexts[i]).error == e.error != [] && e.status == fetch(i + 1, contexts[i]).status
    && e.colegioId == contexts[i].colegio && e.nivelId == contexts[i].nivel && e.gradoId == contexts[i].grado && e.grupoId == contexts[i].grupo
  }

  /** Every error row reports a failed request. */
  lemma {:induction false} CollectErrorRows(contexts: seq<Context>, fetch: (nat, Context) -> Fetch)
    ensures forall e :: e in Collect(contexts, fetch).errores ==> exists i :: Reports(e, contexts, i, fetch)
  {
    if contexts != [] {
      var n := |contexts| - 1;
      var pre := contexts[..n];
      CollectErrorRows(pre, fetch);
      forall e | e in Collect(contexts, fetch).errores ensures exists i :: Reports(e, contexts, i, fetch) {
        if e in Collect(pre, fetch).errores {
          var i :| Reports(e, pre, i, fetch);
          assert pre[i] == contexts[i];
          assert Reports(e, contexts, i, fetch);
        } else {
          assert Reports(e, contexts, n, fetch);
        }
      }
    }
  }

  /** Every student row comes from a successful request and carries its school. */
  lemma {:induction false} CollectAlumnoRows(contexts: seq<Context>, fetch: (nat, Context) -> Fetch)
    ensures forall r :: r in Collect(contexts, fetch).alumnos ==>
              exists i :: 0 <= i < |contexts| && fetch(i + 1, contexts[i]).error == [] && r.colegioId == contexts[i].colegio
  {
    if contexts != [] {
      var n := |contexts| - 1;
      var pre := contexts[..n];
      CollectAlumnoRows(pre, fetch);
      var f := fetch(n + 1, contexts[n]);
      forall r | r in Collect(contexts, fetch).alumnos
        ensures exists i :: 0 <= i < |contexts| && fetch(i + 1, contexts[i]).error == [] && r.colegioId == contexts[i].colegio
      {
        if r in Collect(pre, fetch).alumnos {
          var i :| 0 <= i < |pre| && fetch(i + 1, pre[i]).error == [] && r.colegioId == pre[i].colegio;
          assert pre[i] == contexts[i];
        } else {
          var k :| 0 <= k < |f.data| && FlattenAll(f.data, contexts[n])[k] == r;
        }
      }
    }
  }

  /** The counters of `listar_alumnos`. */
  datatype Summary = Summary(solicitudesTotal: nat, solicitudesError: nat, alumnosTotal: nat)

  /** `listar_alumnos` without the spreadsheet export: the contexts, then one request each. */
  method ListarAlumnos(colegios: seq<int>, nivelIds: seq<int>, grupoIds: seq<int>, empresa: int, ciclo: int,
                       fetch: (nat, Context) -> Fetch)
    returns (alumnos: seq<AlumnoRow>, errores: seq<ErrorRow>, summary: Summary)
    ensures var contexts := Contexts(GradosPorNivel, colegios, if nivelIds == [] then DefaultNiveles else nivelIds,
                                     if grupoIds == [] then DefaultGrupos else grupoIds, empresa, ciclo);
            && Outcome(alumnos, errores) == Collect(contexts, fetch)
            && summary == Summary(|contexts|, |errores|, |alumnos|)
    ensures summary.solicitudesError <= summary.solicitudesTotal
  {
    var niveles := if nivelIds == [] then DefaultNiveles else nivelIds;
    var grupos := if grupoIds == [] then DefaultGrupos else grupoIds;
    var contexts := BuildRequestContexts(colegios, niveles, grupos, empresa, ciclo);
    alumnos, errores := [], [];
    for i := 0 to |contexts|
      invariant Outcome(alumnos, errores) == Collect(contexts[..i], fetch)
    {
      assert contexts[..i + 1][..i] == contexts[..i];
      var ctx := contexts[i];
      var f := fetch(i + 1, ctx);
      if f.error != [] {
        errores := errores + [ErrorRow(ctx.colegio, ctx.nivel, ctx.grado, ctx.grupo, f.status, f.error)];
      } else {
        alumnos := alumnos + FlattenAll(f.data, ctx);
      }
    }
    assert contexts[..|contexts|] == contexts;
    CollectErrorCount(contexts, fetch);
    summary := Summary(|contexts|, |errores|, |alumnos|);
  }
}
