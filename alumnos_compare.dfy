/**
 * `santillana_format/alumnos_compare.py`: the comparison of a school's
 * student sheet as the platform holds it (the BD sheet) with an updated
 * sheet. Rows are maps from canonical column name to cell text, as the
 * sheets are read with every cell as text and blanks as "".
 *
 * Matching goes in tiers: the identity number (NUIP), then both surnames,
 * then both surnames with the first initial of the name. The BD output
 * pairs rows by login and proposes a new level, grade and group only when
 * one of them changed.
 */
module AlumnosCompare {
  import opened Text

  type Fila = map<seq<char>, seq<char>>

  /** `row.get(col)` read through `str(value or "")`: a missing column reads as "". */
  function Campo(row: Fila, col: seq<char>): seq<char> {
    if col in row then row[col] else []
  }

  // ------------------------------------------------------------ normalisers

  predicate IsKeyChar(c: char) { IsLower(c) || IsDigit(c) }

  /** `re.sub(r"[^a-z0-9]+", "", s)`. */
  function KeepKeyChars(s: seq<char>): (r: seq<char>)
    ensures |r| <= |s|
    ensures forall i :: 0 <= i < |r| ==> IsKeyChar(r[i])
  {
    if s == [] then []
    else if IsKeyChar(s[0]) then [s[0]] + KeepKeyChars(s[1..])
    else KeepKeyChars(s[1..])
  }

  lemma {:induction false} KeepKeyCharsOfKeyChars(s: seq<char>)
    requires forall i :: 0 <= i < |s| ==> IsKeyChar(s[i])
    ensures KeepKeyChars(s) == s
  {
    if s != [] {
      KeepKeyCharsOfKeyChars(s[1..]);
    }
  }

  /**
   * `_normalize_text`: lower-cased, accents folded, and everything but
   * lower-case ASCII letters and digits dropped. Folding before lowering
   * gives the same text as the source's order for the accented letters
   * modelled; the strip is subsumed, since whitespace is dropped anyway.
   */
  function NormalizeText(v: seq<char>): (r: seq<char>)
    ensures |r| <= |v|
    ensures forall i :: 0 <= i < |r| ==> IsKeyChar(r[i])
  {
    KeepKeyChars(Lower(FoldMarks(v)))
  }

  /** Normalised text is its own normal form. */
  lemma NormalizeTextIdempotent(v: seq<char>)
    ensures NormalizeText(NormalizeText(v)) == NormalizeText(v)
  {
    var t := NormalizeText(v);
    FoldMarksOfAlnum(t);
    assert Lower(t) == t;
    KeepKeyCharsOfKeyChars(t);
  }

  /** `_first_initial`: the first character of the normalised text, if any. */
  function FirstInitial(v: seq<char>): seq<char> {
    var t := NormalizeText(v);
    if t == [] then [] else [t[0]]
  }

  // ------------------------------------------------------------ base indexes

  /** The three indexes of `_build_base_indexes`. */
  datatype Clave = PorNuip | PorApellidos | PorInicial

  /** `f"{ap_pat}|{ap_mat}"` when both surnames are present, else no key (""). */
  function ApellidosKey(row: Fila): seq<char> {
    var p := NormalizeText(Campo(row, "apellido_paterno"));
    var m := NormalizeText(Campo(row, "apellido_materno"));
    if p != [] && m != [] then p + "|" + m else []
  }

  /** `f"{ap_pat}|{ap_mat}|{inicial}"` when both surnames and the initial are present, else "". */
  function InicialKey(row: Fila): seq<char> {
    var p := NormalizeText(Campo(row, "apellido_paterno"));
    var m := NormalizeText(Campo(row, "apellido_materno"));
    var i := FirstInitial(Campo(row, "nombre"));
    if p != [] && m != [] && i != [] then p + "|" + m + "|" + i else []
  }

  /** A row's key in each index; "" means the row is not indexed there. */
  function KeyOf(c: Clave, row: Fila): seq<char> {
    match c
    case PorNuip => Digits(Campo(row, "nuip"))
    case PorApellidos => ApellidosKey(row)
    case PorInicial => InicialKey(row)
  }

  /**
   * A row enters the surname indexes only when both surnames are present,
   * whatever its NUIP; its NUIP is indexed whenever it has digits.
   */
  lemma KeysPresent(row: Fila)
    ensures KeyOf(PorNuip, row) != [] <==> Digits(Campo(row, "nuip")) != []
    ensures KeyOf(PorApellidos, row) != [] <==>
      NormalizeText(Campo(row, "apellido_paterno")) != [] && NormalizeText(Campo(row, "apellido_materno")) != []
    ensures KeyOf(PorInicial, row) != [] <==>
      KeyOf(PorApellidos, row) != [] && NormalizeText(Campo(row, "nombre")) != []
  {
  }

  /** Two text pieces joined with a separator neither holds split back into the same pieces. */
  lemma {:induction false} JoinedKeyParts(p1: seq<char>, m1: seq<char>, p2: seq<char>, m2: seq<char>)
    requires forall i :: 0 <= i < |p1| ==> IsKeyChar(p1[i])
    requires forall i :: 0 <= i < |p2| ==> IsKeyChar(p2[i])
    requires p1 + "|" + m1 == p2 + "|" + m2
    ensures p1 == p2 && m1 == m2
  {
    var s := p1 + "|" + m1;
    assert s[|p1|] == '|' && s[|p2|] == '|';
    assert forall i :: 0 <= i < |p1| ==> s[i] == p1[i] && s[i] != '|';
    assert forall i :: 0 <= i < |p2| ==> s[i] == p2[i] && s[i] != '|';
    assert |p1| == |p2|;
    assert p1 == s[..|p1|] == p2;
    assert m1 == s[|p1| + 1..] == m2;
  }

  /** The surname key names both surnames: rows with the same key have the same normalised surnames. */
  lemma ApellidosKeyInjective(a: Fila, b: Fila)
    requires ApellidosKey(a) != [] && ApellidosKey(a) == ApellidosKey(b)
    ensures NormalizeText(Campo(a, "apellido_paterno")) == NormalizeText(Campo(b, "apellido_paterno"))
    ensures NormalizeText(Campo(a, "apellido_materno")) == NormalizeText(Campo(b, "apellido_materno"))
  {
    JoinedKeyParts(NormalizeText(Campo(a, "apellido_paterno")), NormalizeText(Campo(a, "apellido_materno")),
                   NormalizeText(Campo(b, "apellido_paterno")), NormalizeText(Campo(b, "apellido_materno")));
  }

  /** The key of every row, in order. */
  function KeySeq(c: Clave, rows: seq<Fila>): (ks: seq<seq<char>>)
    ensures |ks| == |rows|
  {
    if rows == [] then [] else KeySeq(c, rows[..|rows| - 1]) + [KeyOf(c, rows[|rows| - 1])]
  }

  lemma {:induction false} KeySeqAt(c: Clave, rows: seq<Fila>, i: nat)
    requires i < |rows|
    ensures KeySeq(c, rows)[i] == KeyOf(c, rows[i])
  {
    if i < |rows| - 1 {
      KeySeqAt(c, rows[..|rows| - 1], i);
    }
  }

  /** The positions holding `k`, in increasing order. */
  function Occurrences(ks: seq<seq<char>>, k: seq<char>): (r: seq<nat>)
    ensures forall j :: 0 <= j < |r| ==> r[j] < |ks|
  {
    if ks == [] then []
    else Occurrences(ks[..|ks| - 1], k) + (if ks[|ks| - 1] == k then [|ks| - 1] else [])
  }

  lemma {:induction false} OccurrencesMeaning(ks: seq<seq<char>>, k: seq<char>)
    ensures IsSorted(Occurrences(ks, k))
    ensures forall b: nat :: b in Occurrences(ks, k) <==> b < |ks| && ks[b] == k
  {
    if ks != [] {
      var init := ks[..|ks| - 1];
      OccurrencesMeaning(init, k);
      var p := Occurrences(init, k);
      forall j | 0 <= j < |p| ensures p[j] < |init| {
      }
    }
  }

  /** `index.get(key, [])`. */
  function Get(m: map<seq<char>, seq<nat>>, k: seq<char>): seq<nat> {
    if k in m then m[k] else []
  }

  /** `m` lists under each key the positions of `ks` holding it, and holds only keys that occur; "" is never a key. */
  ghost predicate Indexa(m: map<seq<char>, seq<nat>>, ks: seq<seq<char>>) {
    forall k :: Get(m, k) == (if k == [] then [] else Occurrences(ks, k)) && (k in m <==> Get(m, k) != [])
  }

  /** `index.setdefault(key, []).append(i)` when the row has a key. */
  function Add(m: map<seq<char>, seq<nat>>, k: seq<char>, i: nat): map<seq<char>, seq<nat>> {
    if k == [] then m else m[k := Get(m, k) + [i]]
  }

  lemma IndexaStep(m: map<seq<char>, seq<nat>>, ks: seq<seq<char>>, i: nat)
    requires i < |ks| && Indexa(m, ks[..i])
    ensures Indexa(Add(m, ks[i], i), ks[..i + 1])
  {
    assert ks[..i + 1][..i] == ks[..i];
  }

  datatype Indices = Indices(nuip: map<seq<char>, seq<nat>>, apellidos: map<seq<char>, seq<nat>>,
                             apellidosInicial: map<seq<char>, seq<nat>>)

  function IndexOf(ix: Indices, c: Clave): map<seq<char>, seq<nat>> {
    match c
    case PorNuip => ix.nuip
    case PorApellidos => ix.apellidos
    case PorInicial => ix.apellidosInicial
  }

  /** The indexes are those of the BD rows. */
  ghost predicate IndexesOf(ix: Indices, bd: seq<Fila>) {
    Indexa(ix.nuip, KeySeq(PorNuip, bd)) && Indexa(ix.apellidos, KeySeq(PorApellidos, bd)) &&
    Indexa(ix.apellidosInicial, KeySeq(PorInicial, bd))
  }

  /** The three maps index the first `i` BD rows. */
  ghost predicate IndexedPrefix(nuip: map<seq<char>, seq<nat>>, apellidos: map<seq<char>, seq<nat>>,
                                inicial: map<seq<char>, seq<nat>>, bd: seq<Fila>, i: nat)
    requires i <= |bd|
  {
    Indexa(nuip, KeySeq(PorNuip, bd)[..i]) && Indexa(apellidos, KeySeq(PorApellidos, bd)[..i]) &&
    Indexa(inicial, KeySeq(PorInicial, bd)[..i])
  }

  lemma IndexedPrefixStep(nuip: map<seq<char>, seq<nat>>, apellidos: map<seq<char>, seq<nat>>,
                          inicial: map<seq<char>, seq<nat>>, bd: seq<Fila>, i: nat)
    requires i < |bd| && IndexedPrefix(nuip, apellidos, inicial, bd, i)
    ensures IndexedPrefix(Add(nuip, KeyOf(PorNuip, bd[i]), i), Add(apellidos, KeyOf(PorApellidos, bd[i]), i),
                          Add(inicial, KeyOf(PorInicial, bd[i]), i), bd, i + 1)
  {
    KeySeqAt(PorNuip, bd, i);
    KeySeqAt(PorApellidos, bd, i);
    KeySeqAt(PorInicial, bd, i);
    IndexaStep(nuip, KeySeq(PorNuip, bd), i);
    IndexaStep(apellidos, KeySeq(PorApellidos, bd), i);
    IndexaStep(inicial, KeySeq(PorInicial, bd), i);
  }

  lemma IndexedPrefixEmpty(bd: seq<Fila>)
    ensures IndexedPrefix(map[], map[], map[], bd, 0)
  {
    assert forall k :: Get(map[], k) == [];
    assert KeySeq(PorNuip, bd)[..0] == KeySeq(PorApellidos, bd)[..0] == KeySeq(PorInicial, bd)[..0] == [];
  }

  /** `_build_base_indexes`: every BD row under its NUIP, its surnames, and its surnames with initial. */
  method BuildBaseIndexes(bd: seq<Fila>) returns (ix: Indices)
    ensures IndexesOf(ix, bd)
  {
    var nuip, apellidos, inicial := map[], map[], map[];
    IndexedPrefixEmpty(bd);
    var i := 0;
    while i < |bd|
      invariant i <= |bd| && IndexedPrefix(nuip, apellidos, inicial, bd, i)
    {
      IndexedPrefixStep(nuip, apellidos, inicial, bd, i);
      nuip := Add(nuip, KeyOf(PorNuip, bd[i]), i);
      apellidos := Add(apellidos, KeyOf(PorApellidos, bd[i]), i);
      inicial := Add(inicial, KeyOf(PorInicial, bd[i]), i);
      i := i + 1;
    }
    assert KeySeq(PorNuip, bd)[..i] == KeySeq(PorNuip, bd);
    assert KeySeq(PorApellidos, bd)[..i] == KeySeq(PorApellidos, bd);
    assert KeySeq(PorInicial, bd)[..i] == KeySeq(PorInicial, bd);
    ix := Indices(nuip, apellidos, inicial);
  }

  /** The indexes list only BD row positions. */
  lemma IndexaBounded(m: map<seq<char>, seq<nat>>, ks: seq<seq<char>>, k: seq<char>)
    requires Indexa(m, ks)
    ensures forall j :: 0 <= j < |Get(m, k)| ==> Get(m, k)[j] < |ks|
  {
  }

  /** Some position of `ks` holds the key `k`. */
  ghost predicate HitIn(ks: seq<seq<char>>, k: seq<char>) {
    k != [] && exists b :: 0 <= b < |ks| && ks[b] == k
  }

  /** Looking a key up in an index finds exactly the positions holding it. */
  lemma IndexHit(ks: seq<seq<char>>, m: map<seq<char>, seq<nat>>, k: seq<char>)
    requires Indexa(m, ks)
    ensures k != [] && k in m <==> HitIn(ks, k)
    ensures k != [] && k in m ==> IsSorted(m[k]) && forall b: nat :: b in m[k] <==> b < |ks| && ks[b] == k
  {
    OccurrencesMeaning(ks, k);
    if HitIn(ks, k) {
      var b :| 0 <= b < |ks| && ks[b] == k;
      assert b in Occurrences(ks, k);
    }
    if k != [] && k in m {
      assert Get(m, k) == Occurrences(ks, k);
      var b := m[k][0];
      assert b in Occurrences(ks, k);
    }
  }

  // ------------------------------------------------------------ matching

  /** `MATCH_TIPO_N1`, `MATCH_TIPO_N2`, `MATCH_TIPO_N3`. */
  datatype Nivel = N1 | N2 | N3

  function ClaveDe(n: Nivel): Clave {
    match n
    case N1 => PorNuip
    case N2 => PorApellidos
    case N3 => PorInicial
  }

  /** `_match_row`: the first tier whose key the indexes hold, with the BD rows listed under it. */
  function MatchRow(row: Fila, ix: Indices): (Option<Nivel>, seq<nat>) {
    MatchKeys(KeyOf(PorNuip, row), KeyOf(PorApellidos, row), KeyOf(PorInicial, row), ix)
  }

  /** `_match_row` once the row's NUIP, surname and surname-initial keys are computed. */
  function MatchKeys(nuip: seq<char>, key: seq<char>, keyInicial: seq<char>, ix: Indices): (Option<Nivel>, seq<nat>) {
    if nuip != [] && nuip in ix.nuip then (Some(N1), ix.nuip[nuip])
    else if key != [] then
      if key in ix.apellidos then (Some(N2), ix.apellidos[key])
      else if keyInicial != [] && keyInicial in ix.apellidosInicial then (Some(N3), ix.apellidosInicial[keyInicial])
      else (None, [])
    else (None, [])
  }

  lemma MatchKeysMeaning(k1: seq<char>, k2: seq<char>, k3: seq<char>, ix: Indices,
                         ks1: seq<seq<char>>, ks2: seq<seq<char>>, ks3: seq<seq<char>>)
    requires Indexa(ix.nuip, ks1) && Indexa(ix.apellidos, ks2) && Indexa(ix.apellidosInicial, ks3)
    requires k3 != [] ==> k2 != []
    ensures MatchKeys(k1, k2, k3, ix).0 == Some(N1) <==> HitIn(ks1, k1)
    ensures MatchKeys(k1, k2, k3, ix).0 == Some(N2) <==> !HitIn(ks1, k1) && HitIn(ks2, k2)
    ensures MatchKeys(k1, k2, k3, ix).0 == Some(N3) <==> !HitIn(ks1, k1) && !HitIn(ks2, k2) && HitIn(ks3, k3)
    ensures MatchKeys(k1, k2, k3, ix).0.None? ==> MatchKeys(k1, k2, k3, ix).1 == []
    ensures MatchKeys(k1, k2, k3, ix).0 == Some(N1) ==>
      IsSorted(MatchKeys(k1, k2, k3, ix).1) &&
      forall b: nat :: b in MatchKeys(k1, k2, k3, ix).1 <==> b < |ks1| && ks1[b] == k1
    ensures MatchKeys(k1, k2, k3, ix).0 == Some(N2) ==>
      IsSorted(MatchKeys(k1, k2, k3, ix).1) &&
      forall b: nat :: b in MatchKeys(k1, k2, k3, ix).1 <==> b < |ks2| && ks2[b] == k2
    ensures MatchKeys(k1, k2, k3, ix).0 == Some(N3) ==>
      IsSorted(MatchKeys(k1, k2, k3, ix).1) &&
      forall b: nat :: b in MatchKeys(k1, k2, k3, ix).1 <==> b < |ks3| && ks3[b] == k3
  {
    IndexHit(ks1, ix.nuip, k1);
    IndexHit(ks2, ix.apellidos, k2);
    IndexHit(ks3, ix.apellidosInicial, k3);
  }

  /** Some BD row has the row's key in the given tier. */
  ghost predicate Hit(c: Clave, row: Fila, bd: seq<Fila>) {
    KeyOf(c, row) != [] && exists b :: 0 <= b < |bd| && KeyOf(c, bd[b]) == KeyOf(c, row)
  }

  lemma HitBridge(c: Clave, row: Fila, bd: seq<Fila>)
    ensures HitIn(KeySeq(c, bd), KeyOf(c, row)) <==> Hit(c, row, bd)
  {
    var ks := KeySeq(c, bd);
    var k := KeyOf(c, row);
    if HitIn(ks, k) {
      var b :| 0 <= b < |ks| && ks[b] == k;
      KeySeqAt(c, bd, b);
    }
    if Hit(c, row, bd) {
      var b :| 0 <= b < |bd| && KeyOf(c, bd[b]) == k;
      KeySeqAt(c, bd, b);
    }
  }

  lemma RowsBridge(c: Clave, row: Fila, bd: seq<Fila>, rows: seq<nat>)
    requires forall b: nat :: b in rows <==> b < |bd| && KeySeq(c, bd)[b] == KeyOf(c, row)
    ensures forall b: nat :: b in rows <==> b < |bd| && KeyOf(c, bd[b]) == KeyOf(c, row)
  {
    forall b: nat | b < |bd| {
      KeySeqAt(c, bd, b);
    }
  }

  /**
   * Matching is tiered: a NUIP hit decides first, then a hit on both
   * surnames, and the surnames with the initial only when neither hit.
   */
  lemma MatchRowMeaning(row: Fila, bd: seq<Fila>, ix: Indices)
    requires IndexesOf(ix, bd)
    ensures MatchRow(row, ix).0 == Some(N1) <==> Hit(PorNuip, row, bd)
    ensures MatchRow(row, ix).0 == Some(N2) <==> !Hit(PorNuip, row, bd) && Hit(PorApellidos, row, bd)
    ensures MatchRow(row, ix).0 == Some(N3) <==>
      !Hit(PorNuip, row, bd) && !Hit(PorApellidos, row, bd) && Hit(PorInicial, row, bd)
  {
    KeysPresent(row);
    MatchKeysMeaning(KeyOf(PorNuip, row), KeyOf(PorApellidos, row), KeyOf(PorInicial, row), ix,
                     KeySeq(PorNuip, bd), KeySeq(PorApellidos, bd), KeySeq(PorInicial, bd));
    HitBridge(PorNuip, row, bd);
    HitBridge(PorApellidos, row, bd);
    HitBridge(PorInicial, row, bd);
  }

  /** `rows` lists, in increasing order, exactly the BD rows whose key in tier `c` is the row's. */
  ghost predicate KeyRows(c: Clave, row: Fila, bd: seq<Fila>, rows: seq<nat>) {
    IsSorted(rows) && forall b: nat :: b in rows <==> b < |bd| && KeyOf(c, bd[b]) == KeyOf(c, row)
  }

  /** The rows returned are, in order, exactly the BD rows sharing the deciding key; no hit returns no rows. */
  lemma MatchRowRows(row: Fila, bd: seq<Fila>, ix: Indices)
    requires IndexesOf(ix, bd)
    ensures MatchRow(row, ix).0.None? ==> MatchRow(row, ix).1 == []
    ensures MatchRow(row, ix).0.Some? ==> KeyRows(ClaveDe(MatchRow(row, ix).0.value), row, bd, MatchRow(row, ix).1)
  {
    match MatchRow(row, ix).0
    case Some(N1) => MatchRowNuip(row, bd, ix);
    case Some(N2) => MatchRowApellidos(row, bd, ix);
    case Some(N3) => MatchRowInicial(row, bd, ix);
    case None => MatchKeysTier(KeyOf(PorNuip, row), KeyOf(PorApellidos, row), KeyOf(PorInicial, row), ix);
  }

  lemma MatchRowNuip(row: Fila, bd: seq<Fila>, ix: Indices)
    requires IndexesOf(ix, bd) && MatchRow(row, ix).0 == Some(N1)
    ensures KeyRows(PorNuip, row, bd, MatchRow(row, ix).1)
  {
    MatchKeysTier(KeyOf(PorNuip, row), KeyOf(PorApellidos, row), KeyOf(PorInicial, row), ix);
    TierRows(PorNuip, row, bd, ix.nuip, MatchRow(row, ix).1);
  }

  lemma MatchRowApellidos(row: Fila, bd: seq<Fila>, ix: Indices)
    requires IndexesOf(ix, bd) && MatchRow(row, ix).0 == Some(N2)
    ensures KeyRows(PorApellidos, row, bd, MatchRow(row, ix).1)
  {
    MatchKeysTier(KeyOf(PorNuip, row), KeyOf(PorApellidos, row), KeyOf(PorInicial, row), ix);
    TierRows(PorApellidos, row, bd, ix.apellidos, MatchRow(row, ix).1);
  }

  lemma MatchRowInicial(row: Fila, bd: seq<Fila>, ix: Indices)
    requires IndexesOf(ix, bd) && MatchRow(row, ix).0 == Some(N3)
    ensures KeyRows(PorInicial, row, bd, MatchRow(row, ix).1)
  {
    MatchKeysTier(KeyOf(PorNuip, row), KeyOf(PorApellidos, row), KeyOf(PorInicial, row), ix);
    TierRows(PorInicial, row, bd, ix.apellidosInicial, MatchRow(row, ix).1);
  }

  /** Which index a tiered match reads its rows from. */
  lemma MatchKeysTier(k1: seq<char>, k2: seq<char>, k3: seq<char>, ix: Indices)
    ensures MatchKeys(k1, k2, k3, ix).0.None? ==> MatchKeys(k1, k2, k3, ix).1 == []
    ensures MatchKeys(k1, k2, k3, ix).0 == Some(N1) ==>
      k1 != [] && k1 in ix.nuip && MatchKeys(k1, k2, k3, ix).1 == ix.nuip[k1]
    ensures MatchKeys(k1, k2, k3, ix).0 == Some(N2) ==>
      k2 != [] && k2 in ix.apellidos && MatchKeys(k1, k2, k3, ix).1 == ix.apellidos[k2]
    ensures MatchKeys(k1, k2, k3, ix).0 == Some(N3) ==>
      k3 != [] && k3 in ix.apellidosInicial && MatchKeys(k1, k2, k3, ix).1 == ix.apellidosInicial[k3]
  {
  }

  /** The rows listed under a row's key in one index are the BD rows with that key. */
  lemma TierRows(c: Clave, row: Fila, bd: seq<Fila>, m: map<seq<char>, seq<nat>>, rows: seq<nat>)
    requires Indexa(m, KeySeq(c, bd)) && KeyOf(c, row) != [] && KeyOf(c, row) in m && rows == m[KeyOf(c, row)]
    ensures KeyRows(c, row, bd, rows)
  {
    IndexHit(KeySeq(c, bd), m, KeyOf(c, row));
    RowsBridge(c, row, bd, rows);
  }

  /** The rows a match returns are BD rows. */
  lemma MatchRowBounded(row: Fila, bd: seq<Fila>, ix: Indices)
    requires IndexesOf(ix, bd)
    ensures forall j :: 0 <= j < |MatchRow(row, ix).1| ==> MatchRow(row, ix).1[j] < |bd|
  {
    MatchKeysTier(KeyOf(PorNuip, row), KeyOf(PorApellidos, row), KeyOf(PorInicial, row), ix);
    match MatchRow(row, ix).0
    case Some(N1) => IndexaBounded(ix.nuip, KeySeq(PorNuip, bd), KeyOf(PorNuip, row));
    case Some(N2) => IndexaBounded(ix.apellidos, KeySeq(PorApellidos, bd), KeyOf(PorApellidos, row));
    case Some(N3) => IndexaBounded(ix.apellidosInicial, KeySeq(PorInicial, bd), KeyOf(PorInicial, row));
    case None =>
  }

  /** The loop of `_match_field`: some listed BD row has the same non-empty normalised value. */
  function AnyEqual(cur: seq<char>, bd: seq<Fila>, indices: seq<nat>, column: seq<char>): bool
    requires forall j :: 0 <= j < |indices| ==> indices[j] < |bd|
  {
    if indices == [] then false
    else
      var bdValue := NormalizeText(Campo(bd[indices[0]], column));
      (bdValue != [] && bdValue == cur) || AnyEqual(cur, bd, indices[1..], column)
  }

  lemma {:induction false} AnyEqualMeaning(cur: seq<char>, bd: seq<Fila>, indices: seq<nat>, column: seq<char>)
    requires forall j :: 0 <= j < |indices| ==> indices[j] < |bd|
    requires cur != []
    ensures AnyEqual(cur, bd, indices, column) <==>
      exists j :: 0 <= j < |indices| && NormalizeText(Campo(bd[indices[j]], column)) == cur
  {
    if indices != [] {
      AnyEqualMeaning(cur, bd, indices[1..], column);
      if exists j :: 0 <= j < |indices| && NormalizeText(Campo(bd[indices[j]], column)) == cur {
        var j :| 0 <= j < |indices| && NormalizeText(Campo(bd[indices[j]], column)) == cur;
        if j > 0 {
          assert indices[1..][j - 1] == indices[j];
        }
      }
      if exists j :: 0 <= j < |indices[1..]| && NormalizeText(Campo(bd[indices[1..][j]], column)) == cur {
        var j :| 0 <= j < |indices[1..]| && NormalizeText(Campo(bd[indices[1..][j]], column)) == cur;
        assert indices[j + 1] == indices[1..][j];
      }
    }
  }

  /** `_match_field`: no verdict without matched rows or without a value; otherwise whether a matched row agrees. */
  function MatchField(value: seq<char>, bd: seq<Fila>, indices: seq<nat>, column: seq<char>): Option<bool>
    requires forall j :: 0 <= j < |indices| ==> indices[j] < |bd|
  {
    if indices == [] then None
    else
      var current := NormalizeText(value);
      if current == [] then None
      else Some(AnyEqual(current, bd, indices, column))
  }

  lemma MatchFieldMeaning(value: seq<char>, bd: seq<Fila>, indices: seq<nat>, column: seq<char>)
    requires forall j :: 0 <= j < |indices| ==> indices[j] < |bd|
    ensures MatchField(value, bd, indices, column).None? <==> indices == [] || NormalizeText(value) == []
    ensures MatchField(value, bd, indices, column) == Some(true) <==>
      NormalizeText(value) != [] &&
      exists j :: 0 <= j < |indices| && NormalizeText(Campo(bd[indices[j]], column)) == NormalizeText(value)
  {
    if NormalizeText(value) != [] {
      AnyEqualMeaning(NormalizeText(value), bd, indices, column);
    }
  }

  /** `_is_changed`: a blank new value changes nothing; otherwise it changes a blank or a different old value. */
  function IsChanged(nuevo: seq<char>, viejo: seq<char>, norm: seq<char> -> seq<char>): (r: bool)
    ensures r <==> norm(nuevo) != [] && norm(nuevo) != norm(viejo)
  {
    var newNorm := norm(nuevo);
    if newNorm == [] then false
    else
      var oldNorm := norm(viejo);
      if oldNorm == [] then true
      else newNorm != oldNorm
  }

  // ------------------------------------------------------------ groups

  /** `re.sub(r"^grupo", "", t)`. */
  function DropGrupoPrefix(t: seq<char>): (r: seq<char>)
    ensures |r| <= |t| && r == t[|t| - |r|..]
  {
    if |t| >= 5 && t[..5] == "grupo" then t[5..] else t
  }

  /** `re.search(r"[a-z]", s)`. */
  function FirstLetter(s: seq<char>): (r: Option<char>)
    ensures r.Some? ==> IsLower(r.value) && r.value in s
    ensures r.None? ==> forall i :: 0 <= i < |s| ==> !IsLower(s[i])
  {
    if s == [] then None
    else if IsLower(s[0]) then Some(s[0])
    else FirstLetter(s[1..])
  }

  /** The digits at the head of `s`. */
  function DigitRun(s: seq<char>): (r: seq<char>)
    ensures AllDigits(r) && |r| <= |s|
  {
    if s != [] && IsDigit(s[0]) then [s[0]] + DigitRun(s[1..]) else []
  }

  /** `re.findall(r"\d+", s)[0]`, or "" when `s` holds no digit. */
  function FirstDigitRun(s: seq<char>): (r: seq<char>)
    ensures AllDigits(r)
  {
    if s == [] then []
    else if IsDigit(s[0]) then DigitRun(s)
    else FirstDigitRun(s[1..])
  }

  lemma {:induction false} DigitRunOfDigits(s: seq<char>)
    requires AllDigits(s)
    ensures DigitRun(s) == s
  {
    if s != [] {
      DigitRunOfDigits(s[1..]);
    }
  }

  /**
   * `_normalize_grupo`: of the normalised text without a leading "grupo",
   * its first letter, else its first run of digits, else what is left.
   */
  function NormalizeGrupo(v: seq<char>): seq<char> {
    var t := NormalizeText(v);
    if t == [] then []
    else
      var u := DropGrupoPrefix(t);
      match FirstLetter(u)
      case Some(c) => [c]
      case None =>
        var ds := FirstDigitRun(u);
        if ds != [] then ds else u
  }

  /** Text made only of lower-case letters and digits is its own normal form. */
  lemma NormalizeKeyText(s: seq<char>)
    requires forall i :: 0 <= i < |s| ==> IsKeyChar(s[i])
    ensures NormalizeText(s) == s
  {
    FoldMarksOfAlnum(s);
    assert Lower(s) == s;
    KeepKeyCharsOfKeyChars(s);
  }

  /**
   * A normalised group is one lower-case letter, or a number written in
   * digits, or empty exactly when the text held nothing but "grupo".
   */
  lemma NormalizeGrupoShape(v: seq<char>)
    ensures var r := NormalizeGrupo(v);
      (|r| == 1 && IsLower(r[0])) || (r != [] && AllDigits(r)) || r == []
    ensures NormalizeGrupo(v) == [] <==> NormalizeText(v) == [] || NormalizeText(v) == "grupo"
  {
    var t := NormalizeText(v);
    if t != [] {
      var u := DropGrupoPrefix(t);
      if FirstLetter(u).None? {
        assert AllDigits(u);
        DigitRunOfDigits(u);
        assert u != [] ==> FirstDigitRun(u) == u;
      }
      assert u == [] <==> t == "grupo";
    }
  }

  /** Normalising a normalised group changes nothing. */
  lemma NormalizeGrupoIdempotent(v: seq<char>)
    ensures NormalizeGrupo(NormalizeGrupo(v)) == NormalizeGrupo(v)
  {
    var r := NormalizeGrupo(v);
    NormalizeGrupoShape(v);
    if r != [] {
      NormalizeKeyText(r);
      if AllDigits(r) {
        assert r[0] != 'g';
        assert DropGrupoPrefix(r) == r;
        DigitRunOfDigits(r);
      }
    }
  }

  // ------------------------------------------------------------ best match

  /** The candidate's score against the targets: 2 for the name, 1 for the birth date, 1 for the sex. */
  function Puntaje(nombre: seq<char>, fecha: seq<char>, sexo: seq<char>, cand: Fila): (s: nat)
    ensures s <= 4
  {
    (if nombre != [] && NormalizeText(Campo(cand, "nombre")) == nombre then 2 else 0) +
    (if fecha != [] && Digits(Campo(cand, "fecha_nacimiento")) == fecha then 1 else 0) +
    (if sexo != [] && NormalizeText(Campo(cand, "sexo")) == sexo then 1 else 0)
  }

  /** The score of a candidate against a base row. */
  function Score(base: Fila, cand: Fila): nat {
    Puntaje(NormalizeText(Campo(base, "nombre")), Digits(Campo(base, "fecha_nacimiento")),
            NormalizeText(Campo(base, "sexo")), cand)
  }

  /**
   * `_pick_best_match`: no candidate gives none, a single one is taken as
   * it is, and otherwise the first candidate with the highest score wins.
   */
  method PickBestMatch(base: Fila, act: seq<Fila>, indices: seq<nat>) returns (r: Option<nat>)
    requires forall j :: 0 <= j < |indices| ==> indices[j] < |act|
    ensures r.None? <==> indices == []
    ensures |indices| == 1 ==> r == Some(indices[0])
    ensures r.Some? ==>
      (exists k :: 0 <= k < |indices| && r.value == indices[k] &&
        (forall j :: 0 <= j < |indices| ==> Score(base, act[indices[j]]) <= Score(base, act[indices[k]])) &&
        (forall j :: 0 <= j < k ==> Score(base, act[indices[j]]) < Score(base, act[indices[k]])))
  {
    if indices == [] {
      return None;
    }
    if |indices| == 1 {
      return Some(indices[0]);
    }
    var nombre := NormalizeText(Campo(base, "nombre"));
    var fecha := Digits(Campo(base, "fecha_nacimiento"));
    var sexo := NormalizeText(Campo(base, "sexo"));
    var best := FirstBest(cand => Puntaje(nombre, fecha, sexo, cand), act, indices);
    r := Some(indices[best]);
  }

  /** The scoring loop of `_pick_best_match`: the position of the first candidate with the highest score. */
  method FirstBest(score: Fila -> nat, act: seq<Fila>, indices: seq<nat>) returns (best: nat)
    requires indices != [] && forall j :: 0 <= j < |indices| ==> indices[j] < |act|
    ensures best < |indices|
    ensures forall j :: 0 <= j < |indices| ==> score(act[indices[j]]) <= score(act[indices[best]])
    ensures forall j :: 0 <= j < best ==> score(act[indices[j]]) < score(act[indices[best]])
  {
    var bestIdx := indices[0];
    var bestScore: int := -1;
    best := 0;
    var i := 0;
    while i < |indices|
      invariant i <= |indices| && best < |indices| && bestIdx == indices[best]
      invariant i == 0 ==> bestScore == -1 && best == 0
      invariant i > 0 ==> best < i && bestScore == score(act[indices[best]])
      invariant forall j :: 0 <= j < i ==> score(act[indices[j]]) <= bestScore
      invariant forall j :: 0 <= j < best ==> score(act[indices[j]]) < bestScore
    {
      var s := score(act[indices[i]]);
      if s > bestScore {
        bestScore := s;
        bestIdx := indices[i];
        best := i;
      }
      i := i + 1;
    }
  }

  // ------------------------------------------------------------ _clasificar_actualizados counters

  /** The `counts` dictionary of `_clasificar_actualizados`. */
  datatype Conteo = Conteo(nivel1: nat, nivel2: nat, nivel3: nat, sinMatch: nat, gradoNo: nat, grupoNo: nat)

  /** What `_clasificar_actualizados` learns of one updated row: its tier and the grade and group verdicts. */
  datatype Resultado = Resultado(tipo: Option<Nivel>, gradoOk: Option<bool>, grupoOk: Option<bool>)

  function Clasifica(row: Fila, bd: seq<Fila>, ix: Indices): Resultado
    requires IndexesOf(ix, bd)
  {
    var m := MatchRow(row, ix);
    MatchRowBounded(row, bd, ix);
    Resultado(m.0, MatchField(Campo(row, "grado"), bd, m.1, "grado"), MatchField(Campo(row, "grupo"), bd, m.1, "grupo"))
  }

  function Resultados(act: seq<Fila>, bd: seq<Fila>, ix: Indices): (rs: seq<Resultado>)
    requires IndexesOf(ix, bd)
    ensures |rs| == |act|
  {
    if act == [] then [] else Resultados(act[..|act| - 1], bd, ix) + [Clasifica(act[|act| - 1], bd, ix)]
  }

  lemma {:induction false} ResultadosAt(act: seq<Fila>, bd: seq<Fila>, ix: Indices, i: nat)
    requires IndexesOf(ix, bd) && i < |act|
    ensures Resultados(act, bd, ix)[i] == Clasifica(act[i], bd, ix)
  {
    if i < |act| - 1 {
      ResultadosAt(act[..|act| - 1], bd, ix, i);
    }
  }

  /** One updated row counted: its tier, and a grade or group mismatch when it matched. */
  function Cuenta(c: Conteo, r: Resultado): Conteo {
    var c1 := if r.tipo.Some? && r.gradoOk == Some(false) then c.(gradoNo := c.gradoNo + 1) else c;
    var c2 := if r.tipo.Some? && r.grupoOk == Some(false) then c1.(grupoNo := c1.grupoNo + 1) else c1;
    match r.tipo
    case Some(N1) => c2.(nivel1 := c2.nivel1 + 1)
    case Some(N2) => c2.(nivel2 := c2.nivel2 + 1)
    case Some(N3) => c2.(nivel3 := c2.nivel3 + 1)
    case None => c2.(sinMatch := c2.sinMatch + 1)
  }

  /** The counters after a run of rows. */
  function Tally(rs: seq<Resultado>): Conteo {
    if rs == [] then Conteo(0, 0, 0, 0, 0, 0) else Cuenta(Tally(rs[..|rs| - 1]), rs[|rs| - 1])
  }

  /**
   * Every updated row lands in exactly one tier or in "no match", and a
   * grade or group mismatch is counted only for a matched row.
   */
  lemma {:induction false} TallyMeaning(rs: seq<Resultado>)
    ensures var c := Tally(rs);
      c.nivel1 + c.nivel2 + c.nivel3 + c.sinMatch == |rs| &&
      c.gradoNo <= c.nivel1 + c.nivel2 + c.nivel3 && c.grupoNo <= c.nivel1 + c.nivel2 + c.nivel3
  {
    if rs != [] {
      TallyMeaning(rs[..|rs| - 1]);
    }
  }

  lemma TallyStep(rs: seq<Resultado>, i: nat)
    requires i < |rs|
    ensures Tally(rs[..i + 1]) == Cuenta(Tally(rs[..i]), rs[i])
  {
    assert rs[..i + 1][..i] == rs[..i];
  }

  /** The counter updates of one row in `_clasificar_actualizados`. */
  method Contar(c: Conteo, r: Resultado) returns (counts: Conteo)
    ensures counts == Cuenta(c, r)
  {
    counts := c;
    if r.tipo.Some? {
      if r.gradoOk == Some(false) {
        counts := counts.(gradoNo := counts.gradoNo + 1);
      }
      if r.grupoOk == Some(false) {
        counts := counts.(grupoNo := counts.grupoNo + 1);
      }
    }
    if r.tipo == Some(N1) {
      counts := counts.(nivel1 := counts.nivel1 + 1);
    } else if r.tipo == Some(N2) {
      counts := counts.(nivel2 := counts.nivel2 + 1);
    } else if r.tipo == Some(N3) {
      counts := counts.(nivel3 := counts.nivel3 + 1);
    } else {
      counts := counts.(sinMatch := counts.sinMatch + 1);
    }
  }

  /** The counting loop of `_clasificar_actualizados`. */
  method ClasificarActualizados(act: seq<Fila>, bd: seq<Fila>, ix: Indices) returns (counts: Conteo)
    requires IndexesOf(ix, bd)
    ensures counts == Tally(Resultados(act, bd, ix))
  {
    ghost var rs := Resultados(act, bd, ix);
    counts := Conteo(0, 0, 0, 0, 0, 0);
    assert rs[..0] == [];
    var i := 0;
    while i < |act|
      invariant i <= |act| && counts == Tally(rs[..i])
    {
      TallyStep(rs, i);
      ResultadosAt(act, bd, ix, i);
      var m := MatchRow(act[i], ix);
      MatchRowBounded(act[i], bd, ix);
      var gradoOk := MatchField(Campo(act[i], "grado"), bd, m.1, "grado");
      var grupoOk := MatchField(Campo(act[i], "grupo"), bd, m.1, "grupo");
      assert rs[i] == Resultado(m.0, gradoOk, grupoOk);
      counts := Contar(counts, Resultado(m.0, gradoOk, grupoOk));
      i := i + 1;
    }
    assert rs[..i] == rs;
  }

  // ------------------------------------------------------------ logins

  /** Whitespace removed (`re.sub(r"\s+", "", s)`). */
  function RemoveSpaces(s: seq<char>): (r: seq<char>)
    ensures forall i :: 0 <= i < |r| ==> !IsSpace(r[i])
  {
    if s == [] then []
    else if IsSpace(s[0]) then RemoveSpaces(s[1..])
    else [s[0]] + RemoveSpaces(s[1..])
  }

  /** `_normalize_login`: lower-cased with every whitespace character removed (the strip is subsumed). */
  function NormalizeLogin(v: seq<char>): seq<char> {
    RemoveSpaces(Lower(v))
  }

  function LoginOf(row: Fila): seq<char> {
    NormalizeLogin(Campo(row, "login"))
  }

  /** The normalised login of every row. */
  function LoginSeq(rows: seq<Fila>): (ls: seq<seq<char>>)
    ensures |ls| == |rows|
  {
    if rows == [] then [] else LoginSeq(rows[..|rows| - 1]) + [LoginOf(rows[|rows| - 1])]
  }

  lemma {:induction false} LoginSeqAt(rows: seq<Fila>, i: nat)
    requires i < |rows|
    ensures LoginSeq(rows)[i] == LoginOf(rows[i])
  {
    if i < |rows| - 1 {
      LoginSeqAt(rows[..|rows| - 1], i);
    }
  }

  /** The distinct non-empty logins (`bd_logins`, `act_logins`). */
  function Logins(ls: seq<seq<char>>): set<seq<char>> {
    if ls == [] then {}
    else Logins(ls[..|ls| - 1]) + (if ls[|ls| - 1] != [] then {ls[|ls| - 1]} else {})
  }

  lemma {:induction false} LoginsMeaning(ls: seq<seq<char>>)
    ensures forall l :: l in Logins(ls) <==> l != [] && l in ls
  {
    if ls != [] {
      var init := ls[..|ls| - 1];
      LoginsMeaning(init);
      assert ls == init + [ls[|ls| - 1]];
    }
  }

  /** One of the two collecting loops of `_build_login_summary`. */
  method CollectLogins(rows: seq<Fila>) returns (logins: set<seq<char>>)
    ensures logins == Logins(LoginSeq(rows))
  {
    ghost var ls := LoginSeq(rows);
    logins := {};
    var i := 0;
    while i < |rows|
      invariant i <= |rows| && logins == Logins(ls[..i])
    {
      assert ls[..i + 1][..i] == ls[..i];
      LoginSeqAt(rows, i);
      var login := LoginOf(rows[i]);
      if login != [] {
        logins := logins + {login};
      }
      i := i + 1;
    }
    assert ls[..i] == ls;
  }

  /** The dictionary `_build_login_summary` returns. */
  datatype LoginResumen = LoginResumen(loginBdTotal: nat, loginActualizadaTotal: nat, loginMatch: nat,
                                       loginSinBd: nat, loginSinActualizada: nat)

  lemma CardSplit(a: set<seq<char>>, b: set<seq<char>>)
    ensures |a * b| + |b - a| == |b|
  {
    assert b == (a * b) + (b - a);
    assert (a * b) * (b - a) == {};
  }

  /**
   * `_build_login_summary`: the distinct logins of each sheet, those in
   * both, and those in only one; the matched and unmatched logins of each
   * sheet add up to its total.
   */
  method BuildLoginSummary(bd: seq<Fila>, act: seq<Fila>) returns (r: LoginResumen)
    ensures var b := Logins(LoginSeq(bd)); var a := Logins(LoginSeq(act));
      r.loginBdTotal == |b| && r.loginActualizadaTotal == |a| && r.loginMatch == |b * a| &&
      r.loginSinBd == |a - b| && r.loginSinActualizada == |b - a|
    ensures r.loginMatch + r.loginSinBd == r.loginActualizadaTotal
    ensures r.loginMatch + r.loginSinActualizada == r.loginBdTotal
  {
    var bdLogins := CollectLogins(bd);
    var actLogins := CollectLogins(act);
    var matched := bdLogins * actLogins;
    CardSplit(bdLogins, actLogins);
    CardSplit(actLogins, bdLogins);
    assert actLogins * bdLogins == matched;
    r := LoginResumen(|bdLogins|, |actLogins|, |matched|, |actLogins - bdLogins|, |bdLogins - actLogins|);
  }

  /** The index of `_build_login_index`: each login under the first row that has it. */
  function LoginIndex(ls: seq<seq<char>>): map<seq<char>, nat> {
    if ls == [] then map[]
    else
      var m := LoginIndex(ls[..|ls| - 1]);
      var l := ls[|ls| - 1];
      if l != [] && l !in m then m[l := |ls| - 1] else m
  }

  /** The index holds exactly the logins present, each under the first row with it. */
  lemma {:induction false} LoginIndexMeaning(ls: seq<seq<char>>)
    ensures LoginIndex(ls).Keys == Logins(ls)
    ensures forall l :: l in LoginIndex(ls) ==>
      LoginIndex(ls)[l] < |ls| && ls[LoginIndex(ls)[l]] == l &&
      forall j :: 0 <= j < LoginIndex(ls)[l] ==> ls[j] != l
  {
    if ls != [] {
      var init := ls[..|ls| - 1];
      LoginIndexMeaning(init);
      LoginsMeaning(init);
      assert forall j :: 0 <= j < |init| ==> ls[j] == init[j];
    }
  }

  /** `_build_login_index`. */
  method BuildLoginIndex(rows: seq<Fila>) returns (index: map<seq<char>, nat>)
    ensures index == LoginIndex(LoginSeq(rows))
  {
    ghost var ls := LoginSeq(rows);
    index := map[];
    var i := 0;
    while i < |rows|
      invariant i <= |rows| && index == LoginIndex(ls[..i])
    {
      assert ls[..i + 1][..i] == ls[..i];
      LoginSeqAt(rows, i);
      var login := LoginOf(rows[i]);
      if login != [] && login !in index {
        index := index[login := i];
      }
      i := i + 1;
    }
    assert ls[..i] == ls;
  }

  // ------------------------------------------------------------ _build_comparacion_bd

  /** `_clean_cell_value` on a text cell: stripped, and "nan" in any case read as blank. */
  function CleanCell(v: seq<char>): seq<char> {
    var t := Strip(v);
    if Lower(t) == "nan" then [] else t
  }

  /** A row of the comparison sheet, in the order of `ALUMNOS_COMPARACION_COLUMNS`. */
  datatype Salida = Salida(
    nivel: seq<char>, grado: seq<char>, grupo: seq<char>, nui: seq<char>, idAlumno: seq<char>,
    activo: seq<char>, nombre: seq<char>, apellidoPaterno: seq<char>, apellidoMaterno: seq<char>,
    sexo: seq<char>, fechaNacimiento: seq<char>, extranjero: seq<char>, nuip: seq<char>,
    login: seq<char>, password: seq<char>, nuevoNivel: seq<char>, nuevoGrado: seq<char>, nuevoGrupo: seq<char>)

  /** Some of the level, grade or group of the updated row is a change against the BD row. */
  predicate Cambio(bdRow: Fila, actRow: Fila) {
    IsChanged(CleanCell(Campo(actRow, "nivel")), CleanCell(Campo(bdRow, "nivel")), NormalizeText) ||
    IsChanged(CleanCell(Campo(actRow, "grado")), CleanCell(Campo(bdRow, "grado")), NormalizeText) ||
    IsChanged(CleanCell(Campo(actRow, "grupo")), CleanCell(Campo(bdRow, "grupo")), NormalizeGrupo)
  }

  /** The new level, grade and group copied together, or all blank. */
  function Nuevos(cambio: bool, actRow: Fila): (seq<char>, seq<char>, seq<char>) {
    if cambio then (CleanCell(Campo(actRow, "nivel")), CleanCell(Campo(actRow, "grado")), CleanCell(Campo(actRow, "grupo")))
    else ([], [], [])
  }

  /**
   * The output row for an updated row and its BD row: the BD columns,
   * then the person's columns from the updated row, `Activo` set to "Si",
   * and the new level, grade and group only when one of them changed.
   */
  function Fusion(bdRow: Fila, actRow: Fila): (o: Salida)
    ensures o.activo == "Si"
    ensures (o.nuevoNivel, o.nuevoGrado, o.nuevoGrupo) == Nuevos(Cambio(bdRow, actRow), actRow)
  {
    var n := Nuevos(Cambio(bdRow, actRow), actRow);
    Salida(
      CleanCell(Campo(bdRow, "nivel")), CleanCell(Campo(bdRow, "grado")), CleanCell(Campo(bdRow, "grupo")),
      CleanCell(Campo(bdRow, "nui")), CleanCell(Campo(bdRow, "id_alumno")), "Si",
      CleanCell(Campo(actRow, "nombre")), CleanCell(Campo(actRow, "apellido_paterno")),
      CleanCell(Campo(actRow, "apellido_materno")), CleanCell(Campo(actRow, "sexo")),
      CleanCell(Campo(actRow, "fecha_nacimiento")), CleanCell(Campo(bdRow, "extranjero")),
      CleanCell(Campo(actRow, "nuip")), CleanCell(Campo(actRow, "login")), CleanCell(Campo(actRow, "password")),
      n.0, n.1, n.2)
  }

  /** The rows emitted for the updated rows (logins `ls`) whose login is in the index. */
  function Emitidas(index: map<seq<char>, nat>, bd: seq<Fila>, act: seq<Fila>, ls: seq<seq<char>>): seq<Salida>
    requires forall l :: l in index ==> index[l] < |bd|
    requires |ls| == |act|
  {
    if act == [] then []
    else
      var l := ls[|ls| - 1];
      Emitidas(index, bd, act[..|act| - 1], ls[..|ls| - 1]) +
        (if l != [] && l in index then [Fusion(bd[index[l]], act[|act| - 1])] else [])
  }

  /** The positions whose login is among `logins`, in order. */
  function Emparejadas(logins: set<seq<char>>, ls: seq<seq<char>>): (p: seq<nat>)
    ensures forall k :: 0 <= k < |p| ==> p[k] < |ls|
  {
    if ls == [] then []
    else Emparejadas(logins, ls[..|ls| - 1]) + (if ls[|ls| - 1] in logins then [|ls| - 1] else [])
  }

  lemma {:induction false} EmparejadasMeaning(logins: set<seq<char>>, ls: seq<seq<char>>)
    ensures IsSorted(Emparejadas(logins, ls))
    ensures forall i: nat :: i in Emparejadas(logins, ls) <==> i < |ls| && ls[i] in logins
  {
    if ls != [] {
      var init := ls[..|ls| - 1];
      EmparejadasMeaning(logins, init);
      var p := Emparejadas(logins, init);
      assert forall j :: 0 <= j < |p| ==> p[j] < |init|;
      assert forall i :: 0 <= i < |init| ==> init[i] == ls[i];
    }
  }

  /** One output row per matched updated row, built with the BD row the index gives. */
  lemma {:induction false} EmitidasMeaning(index: map<seq<char>, nat>, bd: seq<Fila>, act: seq<Fila>, ls: seq<seq<char>>)
    requires forall l :: l in index ==> index[l] < |bd|
    requires |ls| == |act| && [] !in index
    ensures var out := Emitidas(index, bd, act, ls);
      var p := Emparejadas(index.Keys, ls);
      |out| == |p| &&
      forall k :: 0 <= k < |p| ==> ls[p[k]] in index && out[k] == Fusion(bd[index[ls[p[k]]]], act[p[k]])
  {
    if act != [] {
      var init := act[..|act| - 1];
      var linit := ls[..|ls| - 1];
      EmitidasMeaning(index, bd, init, linit);
      EmparejadasMeaning(index.Keys, linit);
      assert forall i :: 0 <= i < |init| ==> init[i] == act[i] && linit[i] == ls[i];
    }
  }

  lemma EmitidasStep(index: map<seq<char>, nat>, bd: seq<Fila>, act: seq<Fila>, ls: seq<seq<char>>, i: nat)
    requires forall l :: l in index ==> index[l] < |bd|
    requires |ls| == |act| && i < |act|
    ensures Emitidas(index, bd, act[..i + 1], ls[..i + 1]) ==
      Emitidas(index, bd, act[..i], ls[..i]) + (if ls[i] != [] && ls[i] in index then [Fusion(bd[index[ls[i]]], act[i])] else [])
  {
    assert act[..i + 1][..i] == act[..i] && ls[..i + 1][..i] == ls[..i];
  }

  /** The `Login` index loop of `_build_comparacion_bd`, before the blank-row filter. */
  method EmitRows(index: map<seq<char>, nat>, bd: seq<Fila>, act: seq<Fila>) returns (rows: seq<Salida>)
    requires forall l :: l in index ==> index[l] < |bd|
    ensures rows == Emitidas(index, bd, act, LoginSeq(act))
  {
    ghost var ls := LoginSeq(act);
    rows := [];
    var i := 0;
    while i < |act|
      invariant i <= |act| && rows == Emitidas(index, bd, act[..i], ls[..i])
    {
      EmitidasStep(index, bd, act, ls, i);
      LoginSeqAt(act, i);
      var login := LoginOf(act[i]);
      if login != [] && login in index {
        rows := rows + [Fusion(bd[index[login]], act[i])];
      }
      i := i + 1;
    }
    assert act[..i] == act && ls[..i] == ls;
  }

  /** A row the final filter of `_build_comparacion_bd` drops: every cell blank or "nan" once stripped. */
  predicate Vacia(o: Salida) {
    var cells := [o.nivel, o.grado, o.grupo, o.nui, o.idAlumno, o.activo, o.nombre, o.apellidoPaterno,
                  o.apellidoMaterno, o.sexo, o.fechaNacimiento, o.extranjero, o.nuip, o.login, o.password,
                  o.nuevoNivel, o.nuevoGrado, o.nuevoGrupo];
    forall c :: c in cells ==> Strip(c) == [] || Strip(c) == "nan"
  }

  /** An active row is never blank. */
  lemma ActivaNoVacia(o: Salida)
    requires o.activo == "Si"
    ensures !Vacia(o)
  {
    StripUnpadded(o.activo);
    assert o.activo in [o.nivel, o.grado, o.grupo, o.nui, o.idAlumno, o.activo, o.nombre, o.apellidoPaterno,
                        o.apellidoMaterno, o.sexo, o.fechaNacimiento, o.extranjero, o.nuip, o.login, o.password,
                        o.nuevoNivel, o.nuevoGrado, o.nuevoGrupo];
  }

  function SinVacias(rows: seq<Salida>): seq<Salida> {
    if rows == [] then []
    else SinVacias(rows[..|rows| - 1]) + (if Vacia(rows[|rows| - 1]) then [] else [rows[|rows| - 1]])
  }

  /** Rows that are all active pass the blank-row filter untouched. */
  lemma {:induction false} SinVaciasActivas(rows: seq<Salida>)
    requires forall k :: 0 <= k < |rows| ==> rows[k].activo == "Si"
    ensures SinVacias(rows) == rows
  {
    if rows != [] {
      SinVaciasActivas(rows[..|rows| - 1]);
      ActivaNoVacia(rows[|rows| - 1]);
    }
  }

  lemma {:induction false} EmitidasActivas(index: map<seq<char>, nat>, bd: seq<Fila>, act: seq<Fila>, ls: seq<seq<char>>)
    requires forall l :: l in index ==> index[l] < |bd|
    requires |ls| == |act|
    ensures forall k :: 0 <= k < |Emitidas(index, bd, act, ls)| ==> Emitidas(index, bd, act, ls)[k].activo == "Si"
  {
    if act != [] {
      EmitidasActivas(index, bd, act[..|act| - 1], ls[..|ls| - 1]);
    }
  }

  /**
   * `_build_comparacion_bd` up to the date conversion: nothing when a sheet
   * is empty; otherwise one row per updated row whose login has a BD row.
   */
  function ComparacionBd(bd: seq<Fila>, act: seq<Fila>): seq<Salida> {
    if bd == [] || act == [] then []
    else
      var index := LoginIndex(LoginSeq(bd));
      LoginIndexMeaning(LoginSeq(bd));
      SinVacias(Emitidas(index, bd, act, LoginSeq(act)))
  }

  /** The blank-row filter keeps every emitted row. */
  lemma ComparacionBdEmitidas(bd: seq<Fila>, act: seq<Fila>)
    requires bd != [] && act != []
    ensures forall l :: l in LoginIndex(LoginSeq(bd)) ==> LoginIndex(LoginSeq(bd))[l] < |bd|
    ensures ComparacionBd(bd, act) == Emitidas(LoginIndex(LoginSeq(bd)), bd, act, LoginSeq(act))
  {
    LoginIndexMeaning(LoginSeq(bd));
    EmitidasActivas(LoginIndex(LoginSeq(bd)), bd, act, LoginSeq(act));
    SinVaciasActivas(Emitidas(LoginIndex(LoginSeq(bd)), bd, act, LoginSeq(act)));
  }

  method BuildComparacionBd(bd: seq<Fila>, act: seq<Fila>) returns (out: seq<Salida>)
    ensures out == ComparacionBd(bd, act)
  {
    if bd == [] || act == [] {
      return [];
    }
    var index := BuildLoginIndex(bd);
    LoginIndexMeaning(LoginSeq(bd));
    out := EmitRows(index, bd, act);
    ComparacionBdEmitidas(bd, act);
  }

  /** `b` is the first position of `bls` holding the login `l`. */
  ghost predicate FirstAt(bls: seq<seq<char>>, l: seq<char>, b: int) {
    0 <= b < |bls| && bls[b] == l && forall j :: 0 <= j < b ==> bls[j] != l
  }

  /**
   * Over the logins of the two sheets: the emitted rows follow the
   * updated rows whose login is a BD login, each fused with the first BD
   * row having that login.
   */
  lemma EmitidasFirst(bd: seq<Fila>, act: seq<Fila>, bls: seq<seq<char>>, als: seq<seq<char>>)
    requires |bls| == |bd| && |als| == |act|
    ensures forall l :: l in LoginIndex(bls) ==> LoginIndex(bls)[l] < |bd|
    ensures |Emitidas(LoginIndex(bls), bd, act, als)| == |Emparejadas(Logins(bls), als)|
    ensures IsSorted(Emparejadas(Logins(bls), als))
    ensures forall i: nat :: i in Emparejadas(Logins(bls), als) <==> i < |act| && als[i] != [] && als[i] in bls
    ensures forall k :: 0 <= k < |Emparejadas(Logins(bls), als)| ==>
      var i := Emparejadas(Logins(bls), als)[k];
      exists b :: FirstAt(bls, als[i], b) && Emitidas(LoginIndex(bls), bd, act, als)[k] == Fusion(bd[b], act[i])
  {
    var index := LoginIndex(bls);
    LoginIndexMeaning(bls);
    LoginsMeaning(bls);
    assert [] !in index;
    EmitidasMeaning(index, bd, act, als);
    EmparejadasMeaning(Logins(bls), als);
    var out := Emitidas(index, bd, act, als);
    var p := Emparejadas(Logins(bls), als);
    forall k | 0 <= k < |p|
      ensures exists b :: FirstAt(bls, als[p[k]], b) && out[k] == Fusion(bd[b], act[p[k]])
    {
      var b := index[als[p[k]]];
      assert FirstAt(bls, als[p[k]], b);
    }
  }
}
