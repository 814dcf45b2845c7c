/**
 * Student duplicate detection of santillana_format/duplicados.py: the text
 * normalisation, the identity keys built from surnames, first names, birth
 * date, grade and group, the pairing of base and new rows that share a key,
 * and `compare_alumnos`, which splits the new sheet into repeated and fresh
 * rows.
 */
module Duplicados {
  import opened Text

  // ------------------------------------------------------------ normalisation

  /** The cell words read as missing. */
  predicate IsNullWord(t: seq<char>) {
    t == "nan" || t == "none" || t == "null"
  }

  /** Every text of a sequence, upper-cased. */
  function UpperAll(ws: seq<seq<char>>): (r: seq<seq<char>>)
    ensures |r| == |ws| && forall k :: 0 <= k < |ws| ==> r[k] == Upper(ws[k])
  {
    seq(|ws|, k requires 0 <= k < |ws| => Upper(ws[k]))
  }

  /**
   * `_normalize_text`: blank text and the null words read as empty;
   * otherwise accents are folded, every run of whitespace becomes one
   * space, the padding goes and the letters are upper-cased. Collapsing the
   * runs and then stripping leaves the words joined by single spaces.
   */
  function NormalizeText(v: seq<char>): seq<char> {
    var t := Strip(v);
    if t == [] || IsNullWord(Lower(t)) then []
    else Upper(Join(Tokens(FoldMarks(t), IsSpace), " "))
  }

  lemma UpperConcat(a: seq<char>, b: seq<char>)
    ensures Upper(a + b) == Upper(a) + Upper(b)
  {
    assert forall i :: 0 <= i < |a + b| ==> Upper(a + b)[i] == (Upper(a) + Upper(b))[i];
  }

  /** Upper-casing a join upper-cases each part and the glue. */
  lemma {:induction false} UpperJoin(ws: seq<seq<char>>, glue: seq<char>)
    ensures Upper(Join(ws, glue)) == Join(UpperAll(ws), Upper(glue))
    decreases |ws|
  {
    if |ws| > 1 {
      UpperJoin(ws[1..], glue);
      assert UpperAll(ws[1..]) == UpperAll(ws)[1..];
      UpperConcat(ws[0] + glue, Join(ws[1..], glue));
      UpperConcat(ws[0], glue);
    }
  }

  lemma UpperKeepsWords(ws: seq<seq<char>>)
    requires WellFormedTokens(ws, IsSpace)
    ensures WellFormedTokens(UpperAll(ws), IsSpace)
  {
    forall k, i | 0 <= k < |ws| && 0 <= i < |ws[k]|
      ensures !IsSpace(UpperAll(ws)[k][i])
    {
      assert UpperAll(ws)[k][i] == UpperChar(ws[k][i]);
    }
  }

  /**
   * A normalised text is the single-space join of its words, none of
   * which has a lower-case letter; the words are those of the input,
   * accent-folded and upper-cased.
   */
  lemma NormalizeTextShape(v: seq<char>)
    ensures var r := NormalizeText(v);
      Join(Tokens(r, IsSpace), " ") == r &&
      (forall i :: 0 <= i < |r| ==> !IsLower(r[i])) &&
      (Strip(v) != [] && !IsNullWord(Lower(Strip(v))) ==>
        Tokens(r, IsSpace) == UpperAll(Tokens(FoldMarks(Strip(v)), IsSpace)))
  {
    var t := Strip(v);
    if t != [] && !IsNullWord(Lower(t)) {
      var ws := Tokens(FoldMarks(t), IsSpace);
      TokensWellFormed(FoldMarks(t), IsSpace);
      UpperJoin(ws, " ");
      assert Upper(" ") == " ";
      UpperKeepsWords(ws);
      TokensOfJoin(UpperAll(ws), ' ', IsSpace);
    }
  }

  /** `_normalize_nombre_tokens`: the first four words of the normalised text. */
  function NombreTokens(v: seq<char>): seq<seq<char>> {
    var ts := Tokens(NormalizeText(v), IsSpace);
    if |ts| > 4 then ts[..4] else ts
  }

  /** `_normalize_nombre`. */
  function NormalizeNombre(v: seq<char>): seq<char> {
    Join(NombreTokens(v), " ")
  }

  /**
   * At most four name words, each non-empty and free of whitespace; they
   * are the leading words of the normalised text, all of them when it has
   * four or fewer, and there are none exactly when the text is empty.
   */
  lemma NombreTokensMeaning(v: seq<char>)
    ensures var r := NombreTokens(v);
      var ws := Tokens(NormalizeText(v), IsSpace);
      |r| <= 4 && WellFormedTokens(r, IsSpace) && r <= ws &&
      (|ws| <= 4 ==> r == ws) &&
      (r == [] <==> NormalizeText(v) == [])
  {
    var ws := Tokens(NormalizeText(v), IsSpace);
    TokensWellFormed(NormalizeText(v), IsSpace);
    NormalizeTextShape(v);
  }

  // ------------------------------------------------------------ keys

  /**
   * The cells of a student row the keys read; a column the sheet lacks
   * reads as empty. `fecha` is the birth date as `_normalize_date` gives
   * it: an ISO date, or empty.
   */
  datatype Alumno = Alumno(apellidoPaterno: seq<char>, apellidoMaterno: seq<char>, nombre: seq<char>,
                           fecha: seq<char>, grado: seq<char>, grupo: seq<char>)

  /** The text of the `persona:` key of `_row_keys`. */
  function PersonaKey(apP: seq<char>, apM: seq<char>, nombre: seq<char>, fecha: seq<char>,
                      grado: seq<char>, grupo: seq<char>): seq<char> {
    "persona:" + apP + "|" + apM + "|" + nombre + "|" + fecha + "|" + grado + "|" + grupo
  }

  /** `_row_keys`: the one full identity key of a row with every part present. */
  function RowKeys(a: Alumno): set<seq<char>> {
    var apP := NormalizeText(a.apellidoPaterno);
    var apM := NormalizeText(a.apellidoMaterno);
    var nombre := NormalizeNombre(a.nombre);
    var grado := NormalizeText(a.grado);
    var grupo := NormalizeText(a.grupo);
    if apP != [] && apM != [] && nombre != [] && a.fecha != [] && grado != [] && grupo != [] then
      {PersonaKey(apP, apM, nombre, a.fecha, grado, grupo)}
    else {}
  }

  /** A row has at most one key, and has one exactly when both surnames, the name, the date, the grade and the group are present. */
  lemma RowKeysMeaning(a: Alumno)
    ensures |RowKeys(a)| <= 1
    ensures RowKeys(a) != {} <==>
      NormalizeText(a.apellidoPaterno) != [] && NormalizeText(a.apellidoMaterno) != [] &&
      NormalizeText(a.nombre) != [] && a.fecha != [] &&
      NormalizeText(a.grado) != [] && NormalizeText(a.grupo) != []
  {
    NombreTokensMeaning(a.nombre);
  }

  /** One key per leading run of name words: `head`, the words joined by spaces, then `tail`. */
  function PrefixKeySeq(head: seq<char>, ts: seq<seq<char>>, tail: seq<char>): (r: seq<seq<char>>)
    ensures |r| == |ts|
  {
    seq(|ts|, i requires 0 <= i < |ts| => head + Join(ts[..i + 1], " ") + tail)
  }

  function PrefixKeys(head: seq<char>, ts: seq<seq<char>>, tail: seq<char>): set<seq<char>> {
    set k | k in PrefixKeySeq(head, ts, tail)
  }

  /** `_name_prefix_keys`: both surnames with each leading run of name words. */
  function NamePrefixKeys(a: Alumno): set<seq<char>> {
    var apP := NormalizeText(a.apellidoPaterno);
    var apM := NormalizeText(a.apellidoMaterno);
    var ts := NombreTokens(a.nombre);
    if apP == [] || apM == [] || ts == [] then {}
    else PrefixKeys(apP + "|" + apM + "|", ts, [])
  }

  /** `_identity_keys`: the name-prefix keys extended with the birth date. */
  function IdentityKeys(a: Alumno): set<seq<char>> {
    var apP := NormalizeText(a.apellidoPaterno);
    var apM := NormalizeText(a.apellidoMaterno);
    var ts := NombreTokens(a.nombre);
    if apP == [] || apM == [] || a.fecha == [] || ts == [] then {}
    else PrefixKeys(apP + "|" + apM + "|", ts, "|" + a.fecha)
  }

  /** A join of more non-empty words is longer. */
  lemma {:induction false} JoinPrefixLonger(ts: seq<seq<char>>, i: nat, j: nat)
    requires WellFormedTokens(ts, IsSpace) && 0 < i < j <= |ts|
    ensures |Join(ts[..i], " ")| < |Join(ts[..j], " ")|
    decreases j
  {
    assert ts[..j][1..] == ts[1..j];
    if i == 1 {
      assert Join(ts[..i], " ") == ts[0];
    } else {
      assert ts[..i][1..] == ts[1..i];
      JoinPrefixLonger(ts[1..], i - 1, j - 1);
      assert ts[1..][..i - 1] == ts[1..i] && ts[1..][..j - 1] == ts[1..j];
    }
  }

  /**
   * The prefix keys are distinct, one per word, and they are exactly
   * `head`, a leading run of the words joined by spaces, then `tail`.
   */
  lemma PrefixKeysMeaning(head: seq<char>, ts: seq<seq<char>>, tail: seq<char>)
    requires WellFormedTokens(ts, IsSpace)
    ensures |PrefixKeys(head, ts, tail)| == |ts|
    ensures forall k :: k in PrefixKeys(head, ts, tail) <==>
      exists i :: 1 <= i <= |ts| && k == head + Join(ts[..i], " ") + tail
  {
    var s := PrefixKeySeq(head, ts, tail);
    forall i, j | 0 <= i < j < |s| ensures s[i] != s[j] {
      JoinPrefixLonger(ts, i + 1, j + 1);
    }
    DistinctCount(s, set k | k in s);
    forall k ensures k in s <==> exists i :: 1 <= i <= |ts| && k == head + Join(ts[..i], " ") + tail {
      if k in s {
        var i :| 0 <= i < |ts| && s[i] == k;
        assert 1 <= i + 1 <= |ts| && k == head + Join(ts[..i + 1], " ") + tail;
      }
      if exists i :: 1 <= i <= |ts| && k == head + Join(ts[..i], " ") + tail {
        var i :| 1 <= i <= |ts| && k == head + Join(ts[..i], " ") + tail;
        assert k == s[i - 1];
      }
    }
  }

  /**
   * One name-prefix key per name word, so at most four, each naming both
   * surnames and a leading run of words; none without both surnames and a
   * name.
   */
  lemma NamePrefixKeysMeaning(a: Alumno)
    ensures var ts := NombreTokens(a.nombre);
      var apP := NormalizeText(a.apellidoPaterno);
      var apM := NormalizeText(a.apellidoMaterno);
      (NamePrefixKeys(a) == {} <==> apP == [] || apM == [] || ts == []) &&
      (NamePrefixKeys(a) != {} ==> |NamePrefixKeys(a)| == |ts| <= 4) &&
      forall k :: k in NamePrefixKeys(a) <==>
        apP != [] && apM != [] && exists i :: 1 <= i <= |ts| && k == (apP + "|" + apM + "|") + Join(ts[..i], " ")
  {
    NombreTokensMeaning(a.nombre);
    PrefixKeysMeaning(NormalizeText(a.apellidoPaterno) + "|" + NormalizeText(a.apellidoMaterno) + "|", NombreTokens(a.nombre), []);
  }

  /**
   * One identity key per name word, so at most four, each naming both
   * surnames, a leading run of words and the date; none without both
   * surnames, a name and a date.
   */
  lemma IdentityKeysMeaning(a: Alumno)
    ensures var ts := NombreTokens(a.nombre);
      var apP := NormalizeText(a.apellidoPaterno);
      var apM := NormalizeText(a.apellidoMaterno);
      (IdentityKeys(a) == {} <==> apP == [] || apM == [] || a.fecha == [] || ts == []) &&
      (IdentityKeys(a) != {} ==> |IdentityKeys(a)| == |ts| <= 4) &&
      forall k :: k in IdentityKeys(a) <==>
        apP != [] && apM != [] && a.fecha != [] &&
        exists i :: 1 <= i <= |ts| && k == (apP + "|" + apM + "|") + Join(ts[..i], " ") + ("|" + a.fecha)
  {
    NombreTokensMeaning(a.nombre);
    PrefixKeysMeaning(NormalizeText(a.apellidoPaterno) + "|" + NormalizeText(a.apellidoMaterno) + "|", NombreTokens(a.nombre), "|" + a.fecha);
  }

  // ------------------------------------------------------------ _pair_indices

  /** The key builder `_pair_indices` is given: `_row_keys`, `_name_prefix_keys` or `_identity_keys`. */
  datatype KeyKind = ByRow | ByNamePrefix | ByIdentity

  function KeysOf(kind: KeyKind, a: Alumno): set<seq<char>> {
    match kind
    case ByRow => RowKeys(a)
    case ByNamePrefix => NamePrefixKeys(a)
    case ByIdentity => IdentityKeys(a)
  }

  /** Two rows share a key. */
  predicate Shares(kind: KeyKind, a: Alumno, b: Alumno) {
    KeysOf(kind, a) * KeysOf(kind, b) != {}
  }

  /** The key set of every row, in order. */
  function KeySets(kind: KeyKind, rows: seq<Alumno>): (ks: seq<set<seq<char>>>)
    ensures |ks| == |rows| && forall i :: 0 <= i < |rows| ==> ks[i] == KeysOf(kind, rows[i])
  {
    seq(|rows|, i requires 0 <= i < |rows| => KeysOf(kind, rows[i]))
  }

  /** `base_map.get(key, [])`. */
  function Get(m: map<seq<char>, seq<nat>>, k: seq<char>): seq<nat> {
    if k in m then m[k] else []
  }

  /**
   * The base map lists under each key the base rows before `i` that have
   * it, and row `i` under the keys of `done`.
   */
  ghost predicate Indexed(m: map<seq<char>, seq<nat>>, ks: seq<set<seq<char>>>, i: nat, done: set<seq<char>>)
    requires i <= |ks|
  {
    forall k, b: nat {:trigger b in Get(m, k)} :: b in Get(m, k) <==> (b < i && k in ks[b]) || (b == i && k in done)
  }

  /** The first loop of `_pair_indices`: every base row's index under each of its keys. */
  method BuildBaseMap(ks: seq<set<seq<char>>>) returns (m: map<seq<char>, seq<nat>>)
    ensures forall k, b: nat {:trigger b in Get(m, k)} {:trigger k in ks[b]} :: b in Get(m, k) <==> b < |ks| && k in ks[b]
  {
    m := map[];
    assert forall k :: Get(m, k) == [];
    var i := 0;
    while i < |ks|
      invariant i <= |ks| && Indexed(m, ks, i, {})
    {
      var keys := ks[i];
      var rest := keys;
      while rest != {}
        invariant rest <= keys && Indexed(m, ks, i, keys - rest)
        decreases |rest|
      {
        var k :| k in rest;
        IndexKey(m, ks, i, keys - rest, k);
        m := m[k := Get(m, k) + [i]];
        assert keys - (rest - {k}) == (keys - rest) + {k};
        rest := rest - {k};
      }
      assert keys - rest == ks[i];
      IndexNext(m, ks, i);
      i := i + 1;
    }
  }

  lemma IndexKey(m: map<seq<char>, seq<nat>>, ks: seq<set<seq<char>>>, i: nat, done: set<seq<char>>, k: seq<char>)
    requires i < |ks| && Indexed(m, ks, i, done) && k !in done
    ensures Indexed(m[k := Get(m, k) + [i]], ks, i, done + {k})
  {
    var m' := m[k := Get(m, k) + [i]];
    forall k2, b: nat {:trigger b in Get(m', k2)} ensures b in Get(m', k2) <==> (b < i && k2 in ks[b]) || (b == i && k2 in done + {k}) {
      assert b in Get(m, k2) <==> (b < i && k2 in ks[b]) || (b == i && k2 in done);
      if k2 == k {
        assert Get(m', k2) == Get(m, k) + [i];
        assert b in Get(m', k2) <==> b in Get(m, k) || b == i;
      } else {
        assert Get(m', k2) == Get(m, k2);
      }
    }
  }

  lemma IndexNext(m: map<seq<char>, seq<nat>>, ks: seq<set<seq<char>>>, i: nat)
    requires i < |ks| && Indexed(m, ks, i, ks[i])
    ensures Indexed(m, ks, i + 1, {})
  {
  }

  lemma SharedWithOneMore(a: set<seq<char>>, done: set<seq<char>>, k: seq<char>)
    ensures a * (done + {k}) != {} <==> a * done != {} || k in a
  {
    if k in a {
      assert k in a * (done + {k});
    }
    if a * done != {} {
      var x :| x in a * done;
      assert x in a * (done + {k});
    }
    if a * (done + {k}) != {} {
      var x :| x in a * (done + {k});
      if x != k {
        assert x in a * done;
      }
    }
  }

  /** The pairs of base rows and new rows before `n` that share a key, and of new row `n` sharing a key of `done`. */
  ghost predicate Collected(pairs: set<(nat, nat)>, bks: seq<set<seq<char>>>, nks: seq<set<seq<char>>>,
                            n: nat, done: set<seq<char>>)
    requires n <= |nks|
  {
    forall b: nat, j: nat :: (b, j) in pairs <==>
      b < |bks| && ((j < n && bks[b] * nks[j] != {}) || (j == n && bks[b] * done != {}))
  }

  /** The innermost loop of `_pair_indices`: new row `n` paired with each base row of the list. */
  method AddPairs(pairs: set<(nat, nat)>, l: seq<nat>, n: nat) returns (r: set<(nat, nat)>)
    ensures forall b: nat, j: nat :: (b, j) in r <==> (b, j) in pairs || (j == n && b in l)
  {
    r := pairs;
    var t := 0;
    while t < |l|
      invariant t <= |l|
      invariant forall b: nat, j: nat :: (b, j) in r <==> (b, j) in pairs || (j == n && b in l[..t])
    {
      assert l[..t + 1] == l[..t] + [l[t]];
      r := r + {(l[t], n)};
      t := t + 1;
    }
    assert l[..t] == l;
  }

  lemma KeyDone(before: set<(nat, nat)>, pairs: set<(nat, nat)>, bks: seq<set<seq<char>>>, nks: seq<set<seq<char>>>,
                n: nat, done: set<seq<char>>, k: seq<char>, l: seq<nat>)
    requires n <= |nks| && Collected(before, bks, nks, n, done)
    requires forall b: nat, j: nat :: (b, j) in pairs <==> (b, j) in before || (j == n && b in l)
    requires forall b: nat :: b in l <==> b < |bks| && k in bks[b]
    ensures Collected(pairs, bks, nks, n, done + {k})
  {
    forall b: nat | b < |bks|
      ensures bks[b] * (done + {k}) != {} <==> bks[b] * done != {} || b in l
    {
      SharedWithOneMore(bks[b], done, k);
    }
  }

  /** The second loop of `_pair_indices`: every (base, new) pair of rows with a key in common. */
  method CollectPairs(m: map<seq<char>, seq<nat>>, bks: seq<set<seq<char>>>, nks: seq<set<seq<char>>>)
    returns (pairs: set<(nat, nat)>)
    requires forall k, b: nat {:trigger b in Get(m, k)} {:trigger k in bks[b]} :: b in Get(m, k) <==> b < |bks| && k in bks[b]
    ensures forall b: nat, n: nat :: (b, n) in pairs <==> b < |bks| && n < |nks| && bks[b] * nks[n] != {}
  {
    pairs := {};
    var n := 0;
    while n < |nks|
      invariant n <= |nks| && Collected(pairs, bks, nks, n, {})
    {
      var keys := nks[n];
      var rest := keys;
      while rest != {}
        invariant rest <= keys && Collected(pairs, bks, nks, n, keys - rest)
        decreases |rest|
      {
        var k :| k in rest;
        ghost var done := keys - rest;
        var l := Get(m, k);
        ghost var before := pairs;
        pairs := AddPairs(pairs, l, n);
        KeyDone(before, pairs, bks, nks, n, done, k, l);
        assert keys - (rest - {k}) == done + {k};
        rest := rest - {k};
      }
      assert keys - rest == keys;
      n := n + 1;
    }
  }

  /** Pairs in the order `sorted` gives them: by base index, then by new index. */
  predicate PairLt(p: (nat, nat), q: (nat, nat)) {
    p.0 < q.0 || (p.0 == q.0 && p.1 < q.1)
  }

  predicate PairsIncreasing(s: seq<(nat, nat)>) {
    forall i, j :: 0 <= i < j < |s| ==> PairLt(s[i], s[j])
  }

  lemma NoPairEmpty(s: set<(nat, nat)>)
    ensures (forall p :: p !in s) ==> s == {}
  {
    if forall p :: p !in s {
      assert s == {};
    }
  }

  /** The least pair of a non-empty set. */
  ghost function MinPair(s: set<(nat, nat)>): (m: (nat, nat))
    requires s != {}
    ensures m in s && forall p :: p in s && p != m ==> PairLt(m, p)
    decreases |s|
  {
    NoPairEmpty(s);
    var x :| x in s;
    if s == {x} then
      assert forall p :: p in s ==> p == x;
      x
    else
      var m' := MinPair(s - {x});
      assert forall p :: p in s ==> p == x || p in s - {x};
      if PairLt(m', x) then m' else x
  }

  /** `sorted(pairs)`: the pairs of a set in increasing order, picking the least one each round. */
  method SortPairs(s: set<(nat, nat)>) returns (r: seq<(nat, nat)>)
    ensures PairsIncreasing(r)
    ensures forall p :: p in r <==> p in s
  {
    r := [];
    var rest := s;
    while rest != {}
      invariant PairsIncreasing(r)
      invariant forall p :: p in s <==> p in r || p in rest
      invariant forall i, q :: 0 <= i < |r| && q in rest ==> PairLt(r[i], q)
      decreases |rest|
    {
      ghost var least := MinPair(rest);
      var m :| m in rest && forall p :: p in rest && p != m ==> PairLt(m, p);
      r := r + [m];
      rest := rest - {m};
    }
  }

  /**
   * `_pair_indices`: the (base, new) index pairs of rows that share a key,
   * each once, in increasing order; keyless rows pair with nothing.
   */
  method PairIndices(base: seq<Alumno>, nuevo: seq<Alumno>, kind: KeyKind) returns (pairs: seq<(nat, nat)>)
    ensures PairsIncreasing(pairs)
    ensures forall b: nat, n: nat :: (b, n) in pairs <==> b < |base| && n < |nuevo| && Shares(kind, base[b], nuevo[n])
  {
    var bks := KeySets(kind, base);
    var m := BuildBaseMap(bks);
    var s := CollectPairs(m, bks, KeySets(kind, nuevo));
    pairs := SortPairs(s);
  }

  // ------------------------------------------------------------ compare_alumnos

  /** A student sheet after its headers are put in canonical form: its column names and its rows. */
  datatype Planilla = Planilla(columns: seq<seq<char>>, rows: seq<Alumno>)

  /** The columns the key comparisons need. */
  predicate IsKeyColumn(c: seq<char>) {
    c == "nombre" || c == "apellido_paterno" || c == "apellido_materno" ||
    c == "fecha_nacimiento" || c == "grado" || c == "grupo"
  }

  /** `_validate_key_columns`: the key columns the sheet lacks; it raises when there is any. */
  function MissingKeyColumns(columns: seq<seq<char>>): (r: set<seq<char>>)
    ensures forall c :: c in r ==> IsKeyColumn(c) && c !in columns
  {
    set c | c in ["nombre", "apellido_paterno", "apellido_materno", "fecha_nacimiento", "grado", "grupo"] && c !in columns
  }

  /** The check passes exactly when every key column is present. */
  lemma MissingKeyColumnsMeaning(columns: seq<seq<char>>)
    ensures MissingKeyColumns(columns) == {} <==> forall c :: IsKeyColumn(c) ==> c in columns
  {
    if MissingKeyColumns(columns) == {} {
      forall c | IsKeyColumn(c) ensures c in columns {
        assert c !in columns ==> c in MissingKeyColumns(columns);
      }
    }
  }

  /** The keys of all rows together. */
  function Union(ks: seq<set<seq<char>>>): set<seq<char>> {
    if ks == [] then {} else Union(ks[..|ks| - 1]) + ks[|ks| - 1]
  }

  /** The number of rows without a key. */
  function CountEmpty(ks: seq<set<seq<char>>>): (r: nat)
    ensures r <= |ks|
  {
    if ks == [] then 0 else CountEmpty(ks[..|ks| - 1]) + (if ks[|ks| - 1] == {} then 1 else 0)
  }

  lemma {:induction false} UnionMeaning(ks: seq<set<seq<char>>>)
    ensures forall k :: k in Union(ks) <==> exists i :: 0 <= i < |ks| && k in ks[i]
  {
    if ks != [] {
      var init := ks[..|ks| - 1];
      UnionMeaning(init);
      forall k ensures k in Union(ks) <==> exists i :: 0 <= i < |ks| && k in ks[i] {
        if exists i :: 0 <= i < |ks| && k in ks[i] {
          var i :| 0 <= i < |ks| && k in ks[i];
          if i < |init| {
            assert init[i] == ks[i];
          }
        }
        if k in Union(init) {
          var i :| 0 <= i < |init| && k in init[i];
          assert ks[i] == init[i];
        }
      }
    }
  }

  lemma UnionStep(ks: seq<set<seq<char>>>, i: nat)
    requires i < |ks|
    ensures Union(ks[..i + 1]) == Union(ks[..i]) + ks[i]
    ensures CountEmpty(ks[..i + 1]) == CountEmpty(ks[..i]) + (if ks[i] == {} then 1 else 0)
  {
    assert ks[..i + 1][..i] == ks[..i];
  }

  lemma PerRowStep(ks: seq<set<seq<char>>>, i: nat)
    requires i < |ks|
    ensures ks[..i + 1] == ks[..i] + [ks[i]]
    ensures CountEmpty(ks[..i + 1]) == CountEmpty(ks[..i]) + (if ks[i] == {} then 1 else 0)
  {
    assert ks[..i + 1][..i] == ks[..i];
  }

  /** `_build_key_index`: the keys of the base rows and how many rows have none. */
  method BuildKeyIndex(rows: seq<Alumno>) returns (keys: set<seq<char>>, missing: nat)
    ensures keys == Union(KeySets(ByRow, rows)) && missing == CountEmpty(KeySets(ByRow, rows))
  {
    ghost var ks := KeySets(ByRow, rows);
    keys := {};
    missing := 0;
    var i := 0;
    while i < |rows|
      invariant i <= |rows| && keys == Union(ks[..i]) && missing == CountEmpty(ks[..i])
    {
      UnionStep(ks, i);
      var rowKeys := KeysOf(ByRow, rows[i]);
      if rowKeys != {} {
        keys := keys + rowKeys;
      } else {
        missing := missing + 1;
      }
      i := i + 1;
    }
    assert ks[..i] == ks;
  }

  /** `_build_keys_per_row`: each new row's keys, and how many rows have none. */
  method BuildKeysPerRow(rows: seq<Alumno>) returns (keysList: seq<set<seq<char>>>, missing: nat)
    ensures keysList == KeySets(ByRow, rows) && missing == CountEmpty(keysList)
  {
    ghost var ks := KeySets(ByRow, rows);
    keysList := [];
    missing := 0;
    var i := 0;
    while i < |rows|
      invariant i <= |rows| && keysList == ks[..i] && missing == CountEmpty(keysList)
    {
      var rowKeys := KeysOf(ByRow, rows[i]);
      PerRowStep(ks, i);
      if rowKeys == {} {
        missing := missing + 1;
      }
      keysList := keysList + [rowKeys];
      i := i + 1;
    }
    assert ks[..i] == ks;
  }

  /** `duplicado_mask`: a new row is repeated when it has a key the base has. */
  function DupMask(keysList: seq<set<seq<char>>>, baseKeys: set<seq<char>>): (mask: seq<bool>)
    ensures |mask| == |keysList|
  {
    seq(|keysList|, i requires 0 <= i < |keysList| => if keysList[i] != {} then keysList[i] * baseKeys != {} else false)
  }

  /** The positions of the mask holding `want`, in increasing order (`df.loc[mask]`, `df.loc[~mask]`). */
  function Positions(mask: seq<bool>, want: bool): (r: seq<nat>)
    ensures |r| <= |mask|
  {
    if mask == [] then []
    else Positions(mask[..|mask| - 1], want) + (if mask[|mask| - 1] == want then [|mask| - 1] else [])
  }

  /** The positions are increasing and are exactly those holding `want`. */
  lemma {:induction false} PositionsMeaning(mask: seq<bool>, want: bool)
    ensures IsSorted(Positions(mask, want))
    ensures forall i: nat :: i in Positions(mask, want) <==> i < |mask| && mask[i] == want
  {
    if mask != [] {
      var init := mask[..|mask| - 1];
      PositionsMeaning(init, want);
      assert forall i: nat :: i < |init| ==> init[i] == mask[i];
      var p := Positions(init, want);
      forall j | 0 <= j < |p| ensures p[j] < |init| {
        assert p[j] in p;
      }
    }
  }

  /** `df.loc[mask]` and `df.loc[~mask]` together hold every row once. */
  lemma {:induction false} PositionsSplit(mask: seq<bool>)
    ensures |Positions(mask, true)| + |Positions(mask, false)| == |mask|
  {
    if mask != [] {
      PositionsSplit(mask[..|mask| - 1]);
    }
  }

  /** `summary` of `compare_alumnos`. */
  datatype Resumen = Resumen(baseTotal: nat, nuevoTotal: nat, repetidos: nat, sinRepetir: nat,
                             baseSinClave: nat, nuevoSinClave: nat)

  /**
   * The outcome of `compare_alumnos`: the ValueError of a sheet without
   * its key columns, the ValueError of a base without keys, or the
   * positions of the repeated and the remaining new rows with the summary.
   */
  datatype Comparacion =
    | FaltanColumnas(archivo: seq<char>, faltan: set<seq<char>>)
    | SinClavesBase
    | Comparado(repetidos: seq<nat>, filtrados: seq<nat>, resumen: Resumen)

  function Compare(base: Planilla, nuevo: Planilla): Comparacion {
    if MissingKeyColumns(base.columns) != {} then FaltanColumnas("base", MissingKeyColumns(base.columns))
    else if MissingKeyColumns(nuevo.columns) != {} then FaltanColumnas("nuevo", MissingKeyColumns(nuevo.columns))
    else CompareKeys(KeySets(ByRow, base.rows), KeySets(ByRow, nuevo.rows))
  }

  /** The comparison once each row's keys are known. */
  function CompareKeys(bks: seq<set<seq<char>>>, nks: seq<set<seq<char>>>): Comparacion {
    var baseKeys := Union(bks);
    if baseKeys == {} then SinClavesBase
    else
      var mask := DupMask(nks, baseKeys);
      var rep := Positions(mask, true);
      var fil := Positions(mask, false);
      Comparado(rep, fil, Resumen(|bks|, |nks|, |rep|, |fil|, CountEmpty(bks), CountEmpty(nks)))
  }

  /** `compare_alumnos`. */
  method CompareAlumnos(base: Planilla, nuevo: Planilla) returns (r: Comparacion)
    ensures r == Compare(base, nuevo)
  {
    var faltanBase := MissingKeyColumns(base.columns);
    if faltanBase != {} {
      return FaltanColumnas("base", faltanBase);
    }
    var faltanNuevo := MissingKeyColumns(nuevo.columns);
    if faltanNuevo != {} {
      return FaltanColumnas("nuevo", faltanNuevo);
    }
    var baseKeys, baseMissing := BuildKeyIndex(base.rows);
    var nuevoKeys, nuevoMissing := BuildKeysPerRow(nuevo.rows);
    if baseKeys == {} {
      return SinClavesBase;
    }
    var mask := DupMask(nuevoKeys, baseKeys);
    var rep := Positions(mask, true);
    var fil := Positions(mask, false);
    r := Comparado(rep, fil, Resumen(|base.rows|, |nuevo.rows|, |rep|, |fil|, baseMissing, nuevoMissing));
  }

  /**
   * `compare_alumnos` fails exactly when a sheet lacks a key column or no
   * base row has a key. Otherwise a new row is repeated iff some base row
   * has its key, a keyless new row never is, the repeated and the other
   * rows are listed in sheet order and together are all the new rows.
   */
  lemma SharesAt(kind: KeyKind, base: seq<Alumno>, nuevo: seq<Alumno>, b: nat, n: nat)
    requires b < |base| && n < |nuevo|
    ensures Shares(kind, base[b], nuevo[n]) <==> KeySets(kind, base)[b] * KeySets(kind, nuevo)[n] != {}
  {
  }

  /** The comparison fails for a sheet without its key columns, or a base without any key. */
  lemma CompareFails(base: Planilla, nuevo: Planilla)
    ensures Compare(base, nuevo).FaltanColumnas? <==>
      MissingKeyColumns(base.columns) != {} || MissingKeyColumns(nuevo.columns) != {}
    ensures Compare(base, nuevo).SinClavesBase? <==>
      MissingKeyColumns(base.columns) == {} && MissingKeyColumns(nuevo.columns) == {} &&
      forall b :: 0 <= b < |base.rows| ==> KeysOf(ByRow, base.rows[b]) == {}
  {
    CompareKeysMeaning(KeySets(ByRow, base.rows), KeySets(ByRow, nuevo.rows));
  }

  /**
   * Otherwise the new rows split, in order, into those sharing a key with
   * some base row and the rest, and a new row without a key is never repeated.
   */
  lemma CompareMeaning(base: Planilla, nuevo: Planilla)
    requires Compare(base, nuevo).Comparado?
    ensures var c := Compare(base, nuevo);
      IsSorted(c.repetidos) && IsSorted(c.filtrados) &&
      c.resumen.repetidos + c.resumen.sinRepetir == c.resumen.nuevoTotal == |nuevo.rows| &&
      c.resumen.repetidos == |c.repetidos| && c.resumen.sinRepetir == |c.filtrados|
    ensures var c := Compare(base, nuevo);
      forall n: nat :: n < |nuevo.rows| ==>
        (n in c.repetidos <==> exists b :: 0 <= b < |base.rows| && Shares(ByRow, base.rows[b], nuevo.rows[n])) &&
        (n in c.filtrados <==> n !in c.repetidos) &&
        (KeysOf(ByRow, nuevo.rows[n]) == {} ==> n in c.filtrados)
  {
    var bks := KeySets(ByRow, base.rows);
    var nks := KeySets(ByRow, nuevo.rows);
    var c := Compare(base, nuevo);
    assert c == CompareKeys(bks, nks);
    CompareKeysMeaning(bks, nks);
    forall n: nat | n < |nuevo.rows|
      ensures n in c.repetidos <==> exists b :: 0 <= b < |base.rows| && Shares(ByRow, base.rows[b], nuevo.rows[n])
    {
      if n in c.repetidos {
        var b :| 0 <= b < |bks| && bks[b] * nks[n] != {};
        SharesAt(ByRow, base.rows, nuevo.rows, b, n);
      }
      if exists b :: 0 <= b < |base.rows| && Shares(ByRow, base.rows[b], nuevo.rows[n]) {
        var b :| 0 <= b < |base.rows| && Shares(ByRow, base.rows[b], nuevo.rows[n]);
        SharesAt(ByRow, base.rows, nuevo.rows, b, n);
      }
    }
  }

  /**
   * Over key sets: the base has no keys iff no base row has one, and the
   * mask marks a new row iff some base row shares one of its keys.
   */
  lemma CompareKeysMeaning(bks: seq<set<seq<char>>>, nks: seq<set<seq<char>>>)
    ensures CompareKeys(bks, nks).SinClavesBase? <==> forall b :: 0 <= b < |bks| ==> bks[b] == {}
    ensures CompareKeys(bks, nks).Comparado? ==>
      var c := CompareKeys(bks, nks);
      IsSorted(c.repetidos) && IsSorted(c.filtrados) &&
      c.resumen.repetidos + c.resumen.sinRepetir == c.resumen.nuevoTotal == |nks| &&
      c.resumen.repetidos == |c.repetidos| && c.resumen.sinRepetir == |c.filtrados| &&
      forall n: nat :: n < |nks| ==>
        (n in c.repetidos <==> exists b :: 0 <= b < |bks| && bks[b] * nks[n] != {}) &&
        (n in c.filtrados <==> n !in c.repetidos) &&
        (nks[n] == {} ==> n in c.filtrados)
  {
    var baseKeys := Union(bks);
    UnionMeaning(bks);
    if baseKeys == {} {
      forall b | 0 <= b < |bks| ensures bks[b] == {} {
        assert forall k :: k in bks[b] ==> k in baseKeys;
        NoTextMemberEmpty(bks[b]);
      }
    } else {
      var k :| k in baseKeys;
      var mask := DupMask(nks, baseKeys);
      PositionsMeaning(mask, true);
      PositionsMeaning(mask, false);
      PositionsSplit(mask);
      forall n: nat | n < |nks|
        ensures mask[n] <==> exists b :: 0 <= b < |bks| && bks[b] * nks[n] != {}
      {
        if mask[n] {
          var x :| x in nks[n] * baseKeys;
          var b :| 0 <= b < |bks| && x in bks[b];
          assert x in bks[b] * nks[n];
        }
        if exists b :: 0 <= b < |bks| && bks[b] * nks[n] != {} {
          var b :| 0 <= b < |bks| && bks[b] * nks[n] != {};
          var x :| x in bks[b] * nks[n];
          assert x in nks[n] * baseKeys;
        }
      }
    }
  }

  // ------------------------------------------------------------ build_comparacion_grado_seccion_diferente

  /** Two matched rows name a different grade or group once normalised. */
  predicate GradoOGrupoDifieren(a: Alumno, b: Alumno) {
    NormalizeText(a.grado) != NormalizeText(b.grado) || NormalizeText(a.grupo) != NormalizeText(b.grupo)
  }

  /** The outcome: the ValueError of a sheet without its key columns, or the kept (base, new) pairs. */
  datatype Pares = FaltanColumnasPares(archivo: seq<char>, faltan: set<seq<char>>) | Pares(pairs: seq<(nat, nat)>)

  /**
   * `build_comparacion_grado_seccion_diferente`, up to the frame it builds:
   * the pairs of base and new rows sharing an identity key whose grade or
   * group differ, in increasing order.
   */
  method GradoSeccionDiferente(base: Planilla, nuevo: Planilla) returns (r: Pares)
    ensures r.FaltanColumnasPares? <==> MissingKeyColumns(base.columns) != {} || MissingKeyColumns(nuevo.columns) != {}
    ensures r.Pares? ==> PairsIncreasing(r.pairs)
    ensures r.Pares? ==>
      forall b: nat, n: nat :: (b, n) in r.pairs <==>
        b < |base.rows| && n < |nuevo.rows| && Shares(ByIdentity, base.rows[b], nuevo.rows[n]) &&
        GradoOGrupoDifieren(base.rows[b], nuevo.rows[n])
  {
    var faltanBase := MissingKeyColumns(base.columns);
    if faltanBase != {} {
      return FaltanColumnasPares("base", faltanBase);
    }
    var faltanNuevo := MissingKeyColumns(nuevo.columns);
    if faltanNuevo != {} {
      return FaltanColumnasPares("nuevo", faltanNuevo);
    }
    var pairs := PairIndices(base.rows, nuevo.rows, ByIdentity);
    var filtered := FilterPairs(pairs, (p: (nat, nat)) => p.0 < |base.rows| && p.1 < |nuevo.rows| &&
                                             GradoOGrupoDifieren(base.rows[p.0], nuevo.rows[p.1]));
    r := Pares(filtered);
  }

  /** The filter loop of `build_comparacion_grado_seccion_diferente`: the pairs that pass the test, in order. */
  method FilterPairs(pairs: seq<(nat, nat)>, keep: ((nat, nat)) -> bool) returns (filtered: seq<(nat, nat)>)
    requires PairsIncreasing(pairs)
    ensures PairsIncreasing(filtered)
    ensures forall p :: p in filtered <==> p in pairs && keep(p)
  {
    filtered := [];
    var i := 0;
    while i < |pairs|
      invariant i <= |pairs| && PairsIncreasing(filtered)
      invariant forall p :: p in filtered <==> p in pairs[..i] && keep(p)
    {
      assert pairs[..i + 1] == pairs[..i] + [pairs[i]];
      if keep(pairs[i]) {
        forall j | 0 <= j < |filtered| ensures PairLt(filtered[j], pairs[i]) {
          assert filtered[j] in pairs[..i];
        }
        filtered := filtered + [pairs[i]];
      }
      i := i + 1;
    }
    assert pairs[..i] == pairs;
  }

  // ------------------------------------------------------------ select_comparacion_basica

  /** `_normalize_header`: accents folded, whitespace runs collapsed, padding stripped, lower-cased. */
  function NormalizeHeader(s: seq<char>): seq<char> {
    Lower(Join(Tokens(FoldMarks(s), IsSpace), " "))
  }

  /** The names `select_comparacion_basica` keeps. */
  predicate IsImportant(name: seq<char>) {
    name == "nombre" || name == "apellido paterno" || name == "apellido materno"
  }

  predicate StartsWith(s: seq<char>, p: seq<char>) {
    |p| <= |s| && s[..|p|] == p
  }

  /** A comparison column of the base or new side whose name is one of the important ones. */
  predicate Selected(col: seq<char>, prefix: seq<char>) {
    StartsWith(col, prefix) && IsImportant(NormalizeHeader(col[|prefix|..]))
  }

  /** The `base_` columns the loop keeps. */
  function BaseCols(cols: seq<seq<char>>): (r: seq<seq<char>>)
    ensures forall c :: c in r <==> c in cols && Selected(c, "base_")
  {
    if cols == [] then []
    else BaseCols(cols[..|cols| - 1]) + (if Selected(cols[|cols| - 1], "base_") then [cols[|cols| - 1]] else [])
  }

  /** The `nuevo_` columns the loop keeps; a `base_` column is never one. */
  function NuevoCols(cols: seq<seq<char>>): (r: seq<seq<char>>)
    ensures forall c :: c in r <==> c in cols && !StartsWith(c, "base_") && Selected(c, "nuevo_")
  {
    if cols == [] then []
    else
      var c := cols[|cols| - 1];
      NuevoCols(cols[..|cols| - 1]) + (if !StartsWith(c, "base_") && Selected(c, "nuevo_") then [c] else [])
  }

  /**
   * `select_comparacion_basica` on the columns of a comparison frame: an
   * empty frame, or one without an important column, is kept whole;
   * otherwise the important base columns, then the important new ones.
   */
  function SelectBasica(cols: seq<seq<char>>, empty: bool): seq<seq<char>> {
    if empty then cols
    else
      var selected := BaseCols(cols) + NuevoCols(cols);
      if selected == [] then cols else selected
  }

  /** A `nuevo_` column is never a `base_` one. */
  lemma NuevoNotBase(c: seq<char>)
    requires StartsWith(c, "nuevo_")
    ensures !StartsWith(c, "base_")
  {
    assert c[0] == 'n';
  }

  /** An empty frame, or one with no important column, is kept whole. */
  lemma SelectBasicaKeepsAll(cols: seq<seq<char>>, empty: bool)
    requires empty || forall c :: c in cols ==> !Selected(c, "base_") && !Selected(c, "nuevo_")
    ensures SelectBasica(cols, empty) == cols
  {
    var b := BaseCols(cols);
    var n := NuevoCols(cols);
    assert b != [] ==> b[0] in b;
    assert n != [] ==> n[0] in n;
  }

  /**
   * Otherwise the selection keeps exactly the base and new columns whose
   * names are name or surnames, base ones first.
   */
  lemma SelectBasicaSelects(cols: seq<seq<char>>, empty: bool)
    requires !empty && exists c :: c in cols && (Selected(c, "base_") || Selected(c, "nuevo_"))
    ensures var r := SelectBasica(cols, empty);
      (forall c :: c in r <==> c in cols && (Selected(c, "base_") || Selected(c, "nuevo_"))) &&
      forall i, j :: 0 <= i < j < |r| && Selected(r[j], "base_") ==> Selected(r[i], "base_")
  {
    var b := BaseCols(cols);
    var n := NuevoCols(cols);
    var c :| c in cols && (Selected(c, "base_") || Selected(c, "nuevo_"));
    if Selected(c, "nuevo_") {
      NuevoNotBase(c);
    }
    assert c in b + n;
    var r := b + n;
    forall c | c in cols && Selected(c, "nuevo_") ensures c in r {
      NuevoNotBase(c);
    }
    forall k | |b| <= k < |r| ensures !Selected(r[k], "base_") {
      assert r[k] in n;
    }
    forall i, j | 0 <= i < j < |r| && Selected(r[j], "base_") ensures Selected(r[i], "base_") {
      if i < |b| {
        assert r[i] in b;
      }
    }
  }
}
