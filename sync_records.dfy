/**
 * Spreadsheet rows of the teacher file as `profesores_sync.py` reads them:
 * the value and text normalisers, the typed identity keys of a row, the
 * merge of the rows of one group and the levels a row asks for.
 */
module SyncRecords {
  import opened Text

  /** A spreadsheet row after `fillna("")` with `dtype=str`: column name to text. */
  type Row = map<seq<char>, seq<char>>

  /** `record.get(col, "")`. */
  function Get(r: Row, col: seq<char>): seq<char> {
    if col in r then r[col] else ""
  }

  /** Python's `str()` of a JSON scalar. */
  function CellText(c: Cell): (r: seq<char>)
    ensures c.Str? ==> r == c.s
  {
    match c
    case Null => "None"
    case Flag(b) => if b then "True" else "False"
    case Number(n) => IntToString(n)
    case NotANumber => "nan"
    case Str(s) => s
  }

  // ---------------------------------------------------------------- `_value_is_true`

  const FalseWords: set<seq<char>> := {"0", "no", "n", "false"}

  /** `_value_is_true`: false for blank text and for `0/no/n/false` in any case, true otherwise. */
  function ValueIsTrue(v: seq<char>): (r: bool)
    ensures r <==> !IsBlank(v) && Lower(Strip(v)) !in FalseWords
  {
    StripEmptyIffBlank(v);
    var t := Strip(v);
    if t == [] then false else Lower(t) !in FalseWords
  }

  /** The value a merged level column gets reads back as true, the empty one as false. */
  lemma MergedFlagsReadBack()
    ensures ValueIsTrue("SI") && !ValueIsTrue("")
  {
    StripUnpadded("SI");
    assert Lower("SI") == "si";
  }

  /** Stripping first does not change the verdict. */
  lemma ValueIsTrueOfStripped(v: seq<char>)
    ensures ValueIsTrue(Strip(v)) == ValueIsTrue(v)
  {
    StripUnpadded(Strip(v));
    StripEmptyIffBlank(v);
    StripEmptyIffBlank(Strip(v));
  }

  /** Blank padding around a word does not change the verdict. */
  lemma ValueIsTrueOfPadded(pre: seq<char>, w: seq<char>, post: seq<char>)
    requires IsBlank(pre) && IsBlank(post)
    requires w != [] && !IsSpace(w[0]) && !IsSpace(w[|w| - 1])
    ensures ValueIsTrue(pre + w + post) == (Lower(w) !in FalseWords)
  {
    StripPadded(pre, w, post);
    StripEmptyIffBlank(pre + w + post);
  }

  // ---------------------------------------------------------------- normalisers

  const NullWords: set<seq<char>> := {"nan", "none", "null"}

  /**
   * `_normalize_text`: stripped; blank or a null word in any case gives "";
   * otherwise accents are folded, whitespace runs become one space and
   * letters are upper-cased.
   */
  function NormalizeText(v: seq<char>): (r: seq<char>)
  {
    var t := Strip(v);
    if t == [] || Lower(t) in NullWords then "" else Upper(Join(Tokens(FoldMarks(t), IsSpace), " "))
  }

  /** The normal form is empty exactly for blank text and the null words, and holds no lower-case letter. */
  lemma NormalizeTextShape(v: seq<char>)
    ensures NormalizeText(v) == "" <==> Strip(v) == [] || Lower(Strip(v)) in NullWords
    ensures forall i :: 0 <= i < |NormalizeText(v)| ==> !IsLower(NormalizeText(v)[i])
    ensures forall i :: 0 <= i < |NormalizeText(v)| ==> IsSpace(NormalizeText(v)[i]) ==> NormalizeText(v)[i] == ' '
  {
    var t := Strip(v);
    if t != [] && Lower(t) !in NullWords {
      var f := FoldMarks(t);
      var ts := Tokens(f, IsSpace);
      FoldMarkKeeps(t[0]);
      TokensEmptyIff(f, IsSpace);
      TokensWellFormed(f, IsSpace);
      assert ts != [] && ts[0] != [];
      JoinNonEmpty(ts, " ");
      var P := (c: char) => !IsSpace(c) || c == ' ';
      JoinKeeps(ts, " ", P);
      var j := Join(ts, " ");
      forall i | 0 <= i < |j|
        ensures IsSpace(Upper(j)[i]) ==> Upper(j)[i] == ' '
      {
        assert P(j[i]);
      }
    }
  }

  lemma JoinNonEmpty(parts: seq<seq<char>>, glue: seq<char>)
    requires parts != [] && parts[0] != []
    ensures Join(parts, glue) != []
  {
  }

  /** `_normalize_email`: stripped and lower-cased; a null word gives "". */
  function NormalizeEmail(v: seq<char>): (r: seq<char>)
    ensures r != [] ==> r == Lower(Strip(v)) && r !in NullWords
    ensures r == [] ==> Strip(v) == [] || Lower(Strip(v)) in NullWords
  {
    var t := Lower(Strip(v));
    if t == [] || t in NullWords then "" else t
  }

  /**
   * `_normalize_numeric` and `_normalize_dni`, which are the same function in
   * the source: the decimal digits of the normalised text.
   */
  function NormalizeDigits(v: seq<char>): (r: seq<char>)
    ensures AllDigits(r)
  {
    Digits(NormalizeText(v))
  }

  /**
   * Accents never matter: text and its accent-folded form normalise alike,
   * so `José Pérez` and `Jose Perez` are one name. (A null word is
   * recognised before folding, so the folded text must not be one.)
   */
  lemma NormalizeTextFolds(v: seq<char>)
    requires Lower(Strip(FoldMarks(v))) !in NullWords
    ensures NormalizeText(FoldMarks(v)) == NormalizeText(v)
  {
    var t := Strip(v);
    StripFoldMarks(v);
    FoldMarksIdempotent(t);
    if Lower(t) in NullWords {
      NullWordUnmarked(t);
    }
  }

  /** A null word in any case is plain ASCII, which folding leaves alone. */
  lemma NullWordUnmarked(t: seq<char>)
    requires Lower(t) in NullWords
    ensures FoldMarks(t) == t
  {
    assert forall u :: u in NullWords ==> forall i :: 0 <= i < |u| ==> IsLower(u[i]) by {
      forall u | u in NullWords
        ensures forall i :: 0 <= i < |u| ==> IsLower(u[i])
      {
        assert u == "nan" || u == "none" || u == "null";
      }
    }
    forall i | 0 <= i < |t|
      ensures FoldMark(t[i]) == t[i]
    {
      assert IsLower(Lower(t)[i]);
      AlnumUnmarked(t[i]);
    }
  }

  /** A word with no blank, other than a null word, normalises to its accent-folded upper-case form. */
  lemma NormalizeTextOfWord(w: seq<char>)
    requires w != [] && forall i :: 0 <= i < |w| ==> !IsSpace(w[i])
    requires Lower(w) !in NullWords
    ensures NormalizeText(w) == Upper(FoldMarks(w))
  {
    StripUnpadded(w);
    var f := FoldMarks(w);
    forall i | 0 <= i < |w|
      ensures !IsSpace(f[i])
    {
      FoldMarkKeeps(w[i]);
    }
    TokensOfWord(f, IsSpace);
    assert Join([f], " ") == f;
  }

  /** Digits and minus signs carry no mark and no letter: such a word is its own normal form. */
  lemma NormalizeTextOfPlain(w: seq<char>)
    requires w != [] && forall i :: 0 <= i < |w| ==> IsDigit(w[i]) || w[i] == '-'
    ensures NormalizeText(w) == w
  {
    assert Lower(w)[0] == w[0];
    assert Lower(w) !in NullWords;
    NormalizeTextOfWord(w);
    forall i | 0 <= i < |w|
      ensures FoldMark(w[i]) == w[i]
    {
      PlainUnmarked(w[i]);
    }
    UpperOfNoLower(w);
  }

  lemma PlainUnmarked(c: char)
    requires IsDigit(c) || c == '-'
    ensures FoldMark(c) == c
  {
  }

  /** A padded decimal number reads as its digits, so `str(n)` from the API matches `" n "` in a cell. */
  lemma NormalizeDigitsOfNumber(pre: seq<char>, n: nat, post: seq<char>)
    requires IsBlank(pre) && IsBlank(post)
    ensures NormalizeDigits(pre + NatToString(n) + post) == NatToString(n)
  {
    var d := NatToString(n);
    StripPadded(pre, d, post);
    StripUnpadded(d);
    NormalizeTextOfPlain(d);
    assert NormalizeText(pre + d + post) == NormalizeText(d);
    DigitsOfDigits(d);
  }

  /** The API persona id, `str(persona_id)`, normalises to the digits of its absolute value. */
  lemma NormalizeDigitsOfInt(n: int)
    ensures NormalizeDigits(IntToString(n)) == NatToString(if n < 0 then -n else n)
  {
    var m: nat := if n < 0 then -n else n;
    var d := NatToString(m);
    if n < 0 {
      assert IntToString(n) == "-" + d;
      NormalizeDigitsOfNegative(m);
    } else {
      assert IntToString(n) == d == [] + d + [];
      NormalizeDigitsOfNumber([], m, []);
    }
    assert NormalizeDigits(IntToString(n)) == d;
  }

  /** A minus sign is not a digit: `"-" + digits` normalises to the digits. */
  lemma NormalizeDigitsOfNegative(m: nat)
    ensures NormalizeDigits("-" + NatToString(m)) == NatToString(m)
  {
    var d := NatToString(m);
    var s := "-" + d;
    assert forall i :: 1 <= i < |s| ==> s[i] == d[i - 1];
    NormalizeTextOfPlain(s);
    DigitsOfConcat("-", d);
    DigitsOfDigits(d);
  }

  // ---------------------------------------------------------------- identity keys

  datatype KeyType = PersonaIdKey | DniKey | LoginKey | EmailKey | NombreKey

  /** `KEY_PRIORITY`. */
  const KeyPriority: seq<KeyType> := [PersonaIdKey, DniKey, LoginKey, EmailKey, NombreKey]

  /** The identifying text of one record, before normalisation. */
  datatype Identity = Identity(personaId: seq<char>, dni: seq<char>, login: seq<char>, email: seq<char>,
                               nombre: seq<char>, apellidoPaterno: seq<char>, apellidoMaterno: seq<char>)

  /** The identity of a spreadsheet row, read from its canonical columns. */
  function IdentityOfRow(r: Row): Identity {
    Identity(Get(r, "Persona ID"), Get(r, "DNI"), Get(r, "Login"), Get(r, "E-mail"),
             Get(r, "Nombre"), Get(r, "Apellido Paterno"), Get(r, "Apellido Materno"))
  }

  /** The normalised identity: digits for the ids, lower-case for login and e-mail, `_normalize_text` for names. */
  function Normalize(id: Identity): Identity {
    Identity(NormalizeDigits(id.personaId), NormalizeDigits(id.dni), NormalizeEmail(id.login), NormalizeEmail(id.email),
             NormalizeText(id.nombre), NormalizeText(id.apellidoPaterno), NormalizeText(id.apellidoMaterno))
  }

  /** The key of type `t` built from normalised text, `None` when that text is empty. */
  function KeyOfNormal(n: Identity, t: KeyType): Option<seq<char>>
  {
    match t
    case PersonaIdKey => if n.personaId != "" then Some("persona_id:" + n.personaId) else None
    case DniKey => if n.dni != "" then Some("dni:" + n.dni) else None
    case LoginKey => if n.login != "" then Some("login:" + n.login) else None
    case EmailKey => if n.email != "" then Some("email:" + n.email) else None
    case NombreKey =>
      if n.nombre != "" && n.apellidoPaterno != "" && n.apellidoMaterno != "" then
        Some("nombre:" + n.apellidoPaterno + "|" + n.apellidoMaterno + "|" + n.nombre)
      else None
  }

  /** The key of type `t` of a record, `None` when its text normalises to nothing. */
  function KeyOf(id: Identity, t: KeyType): Option<seq<char>> {
    KeyOfNormal(Normalize(id), t)
  }

  /** The typed key sets of a normalised identity: each present type holds its one key. */
  function KeysOfNormal(n: Identity): map<KeyType, set<seq<char>>> {
    map t | t in KeyPriority && KeyOfNormal(n, t).Some? :: {KeyOfNormal(n, t).value}
  }

  /** `keys_by_type` of `_build_keys`. */
  function KeysByType(id: Identity): map<KeyType, set<seq<char>>> {
    KeysOfNormal(Normalize(id))
  }

  /** `keys_union`: the union of the typed key sets. */
  function KeysUnion(m: map<KeyType, set<seq<char>>>): (r: set<seq<char>>)
  {
    set t, k | t in m && k in m[t] :: k
  }

  /** The keys of one record. */
  function AllKeys(id: Identity): set<seq<char>> {
    KeysUnion(KeysByType(id))
  }

  /** `KEY_PRIORITY` lists every key type. */
  lemma InKeyPriority(t: KeyType)
    ensures t in KeyPriority
  {
    match t
    case PersonaIdKey => assert KeyPriority[0] == t;
    case DniKey => assert KeyPriority[1] == t;
    case LoginKey => assert KeyPriority[2] == t;
    case EmailKey => assert KeyPriority[3] == t;
    case NombreKey => assert KeyPriority[4] == t;
  }

  /** The typed key sets hold exactly the present keys, one per type, and their union holds nothing else. */
  lemma KeysOfNormalMeaning(n: Identity)
    ensures forall t :: t in KeysOfNormal(n) <==> KeyOfNormal(n, t).Some?
    ensures forall t :: t in KeysOfNormal(n) ==> KeysOfNormal(n)[t] == {KeyOfNormal(n, t).value}
    ensures forall k :: k in KeysUnion(KeysOfNormal(n)) <==> exists t :: KeyOfNormal(n, t) == Some(k)
  {
    var m := KeysOfNormal(n);
    forall t
      ensures t in m <==> KeyOfNormal(n, t).Some?
    {
      InKeyPriority(t);
    }
    forall k
      ensures k in KeysUnion(m) <==> exists t :: KeyOfNormal(n, t) == Some(k)
    {
      if k in KeysUnion(m) {
        var t :| t in m && k in m[t];
        assert KeyOfNormal(n, t) == Some(k);
      }
      if exists t :: KeyOfNormal(n, t) == Some(k) {
        var t :| KeyOfNormal(n, t) == Some(k);
        assert t in m && k in m[t];
      }
    }
  }

  /**
   * `_build_keys`: the present types hold exactly one key each, the `nombre`
   * key needs the name and both surnames, every key names its type, and the
   * union holds exactly the typed keys.
   */
  lemma KeysByTypeMeaning(id: Identity)
    ensures forall t :: t in KeysByType(id) <==> KeyOf(id, t).Some?
    ensures forall t :: t in KeysByType(id) ==> KeysByType(id)[t] == {KeyOf(id, t).value}
    ensures NombreKey in KeysByType(id) <==>
              NormalizeText(id.nombre) != "" && NormalizeText(id.apellidoPaterno) != "" && NormalizeText(id.apellidoMaterno) != ""
    ensures forall t :: KeyOf(id, t).Some? ==> TypeOfKey(KeyOf(id, t).value) == Some(t)
    ensures forall k :: k in AllKeys(id) <==> exists t :: KeyOf(id, t) == Some(k)
  {
    var n := Normalize(id);
    KeysOfNormalMeaning(n);
    forall t | KeyOfNormal(n, t).Some?
      ensures TypeOfKey(KeyOfNormal(n, t).value) == Some(t)
    {
      KeyNamesItsType(n, t);
    }
  }

  /** The first character of a key names its type, so keys of different types never collide. */
  function TypeOfKey(k: seq<char>): Option<KeyType> {
    if k == [] then None
    else if k[0] == 'p' then Some(PersonaIdKey)
    else if k[0] == 'd' then Some(DniKey)
    else if k[0] == 'l' then Some(LoginKey)
    else if k[0] == 'e' then Some(EmailKey)
    else if k[0] == 'n' then Some(NombreKey)
    else None
  }

  lemma KeyNamesItsType(n: Identity, t: KeyType)
    requires KeyOfNormal(n, t).Some?
    ensures TypeOfKey(KeyOfNormal(n, t).value) == Some(t)
  {
  }

  /** Two records share a key only through the same type. */
  lemma SharedKeySameType(a: Identity, b: Identity, t: KeyType, u: KeyType)
    requires KeyOf(a, t).Some? && KeyOf(a, t) == KeyOf(b, u)
    ensures t == u
  {
    KeyNamesItsType(Normalize(a), t);
    KeyNamesItsType(Normalize(b), u);
  }

  // ---------------------------------------------------------------- desired levels

  const LevelColumns: seq<seq<char>> := ["Inicial", "Primaria", "Secundaria"]

  /** `NIVEL_MAP`, from a level column to its level id. */
  function NivelOf(col: seq<char>): int
    requires col in LevelColumns
  {
    if col == "Inicial" then 38 else if col == "Primaria" then 39 else 40
  }

  /** `_desired_levels`: the level ids of the level columns whose value reads as true. */
  function DesiredLevels(r: Row): (s: set<int>)
    ensures s <= {38, 39, 40}
  {
    set c | c in LevelColumns && ValueIsTrue(Get(r, c)) :: NivelOf(c)
  }

  /** A level is desired exactly when its column reads as true. */
  lemma DesiredLevelsMeaning(r: Row)
    ensures 38 in DesiredLevels(r) <==> ValueIsTrue(Get(r, "Inicial"))
    ensures 39 in DesiredLevels(r) <==> ValueIsTrue(Get(r, "Primaria"))
    ensures 40 in DesiredLevels(r) <==> ValueIsTrue(Get(r, "Secundaria"))
  {
    assert "Inicial" in LevelColumns && "Primaria" in LevelColumns && "Secundaria" in LevelColumns;
    assert NivelOf("Inicial") == 38 && NivelOf("Primaria") == 39 && NivelOf("Secundaria") == 40;
  }

  /** The `Estado` column is never read when deciding levels or keys. */
  lemma EstadoNeverRead(r: Row, estado: seq<char>)
    ensures DesiredLevels(r["Estado" := estado]) == DesiredLevels(r)
    ensures IdentityOfRow(r["Estado" := estado]) == IdentityOfRow(r)
  {
    var r' := r["Estado" := estado];
    forall c | c in LevelColumns
      ensures Get(r', c) == Get(r, c)
    {
    }
  }

  // ---------------------------------------------------------------- `_merge_records`

  /** `BASE_COLUMNS`. */
  const BaseColumns: seq<seq<char>> :=
    ["Nombre", "Apellido Paterno", "Apellido Materno", "Sexo", "DNI", "E-mail", "Login", "Password",
     "Inicial", "Primaria", "Secundaria"]

  /** The merged columns of `consolidar_profesores`: the base ones, then `Estado` and `Persona ID` when present. */
  function Columns(hasEstado: bool, hasPersonaId: bool): (cols: seq<seq<char>>)
    ensures forall c :: c in LevelColumns ==> c in cols
  {
    assert BaseColumns[8] == "Inicial" && BaseColumns[9] == "Primaria" && BaseColumns[10] == "Secundaria";
    BaseColumns + (if hasEstado then ["Estado"] else []) + (if hasPersonaId then ["Persona ID"] else [])
  }

  predicate Distinct(cols: seq<seq<char>>) {
    forall i, j :: 0 <= i < j < |cols| ==> cols[i] != cols[j]
  }

  lemma ColumnsDistinct(hasEstado: bool, hasPersonaId: bool)
    ensures Distinct(Columns(hasEstado, hasPersonaId))
  {
    var cols := Columns(hasEstado, hasPersonaId);
    forall i, j | 0 <= i < j < |cols|
      ensures cols[i] != cols[j]
    {
      if j < |BaseColumns| {
        assert cols[i] == BaseColumns[i] && cols[j] == BaseColumns[j];
      } else if i < |BaseColumns| {
        assert cols[i] == BaseColumns[i];
        assert cols[j][0] == 'E' || cols[j][0] == 'P';
        assert cols[i] != "Estado" && cols[i] != "Persona ID";
      }
    }
  }

  /** `str(record.get(col, "")).strip()`. */
  function Cleaned(r: Row, col: seq<char>): seq<char> {
    Strip(Get(r, col))
  }

  /** The cleaned values of one column, row by row. */
  function Column(rs: seq<Row>, col: seq<char>): (vs: seq<seq<char>>)
    ensures |vs| == |rs| && forall i :: 0 <= i < |rs| ==> vs[i] == Cleaned(rs[i], col)
  {
    seq(|rs|, i requires 0 <= i < |rs| => Cleaned(rs[i], col))
  }

  /** The first non-empty value, or "". */
  function FirstNonEmpty(vs: seq<seq<char>>): seq<char>
  {
    if vs == [] then ""
    else
      var f := FirstNonEmpty(vs[..|vs| - 1]);
      if f != "" then f else vs[|vs| - 1]
  }

  /** Some value satisfies `p`. */
  predicate AnyOf(vs: seq<seq<char>>, p: seq<char> -> bool)
  {
    if vs == [] then false else AnyOf(vs[..|vs| - 1], p) || p(vs[|vs| - 1])
  }

  /** Some non-empty value normalises differently from the first non-empty value before it. */
  predicate Conflicting(vs: seq<seq<char>>, norm: seq<char> -> seq<char>)
  {
    if vs == [] then false
    else
      var f := FirstNonEmpty(vs[..|vs| - 1]);
      var v := vs[|vs| - 1];
      Conflicting(vs[..|vs| - 1], norm) || (v != "" && f != "" && norm(v) != norm(f))
  }

  /** The value a level column takes in the merged record. */
  function FlagText(flag: bool): seq<char> {
    if flag then "SI" else ""
  }

  /** The merged value of one column. */
  function MergedValue(rs: seq<Row>, col: seq<char>): seq<char> {
    if col in LevelColumns then FlagText(AnyOf(Column(rs, col), ValueIsTrue))
    else FirstNonEmpty(Column(rs, col))
  }

  /** The merged record of a group. */
  function Merged(rs: seq<Row>, cols: seq<seq<char>>): Row {
    map c | c in cols :: MergedValue(rs, c)
  }

  /** The columns whose values disagree within the group. */
  function ConflictColumns(rs: seq<Row>, cols: seq<seq<char>>): set<seq<char>> {
    set c | c in cols && c !in LevelColumns && Conflicting(Column(rs, c), NormalizeText)
  }

  /** The kept value is the first non-empty one: empty only when every value is, and every earlier value is empty. */
  lemma {:induction false} FirstNonEmptyMeaning(vs: seq<seq<char>>)
    ensures FirstNonEmpty(vs) == "" <==> forall i :: 0 <= i < |vs| ==> vs[i] == ""
    ensures FirstNonEmpty(vs) != "" ==>
              exists i :: 0 <= i < |vs| && vs[i] == FirstNonEmpty(vs) && forall j :: 0 <= j < i ==> vs[j] == ""
  {
    if vs != [] {
      var init := vs[..|vs| - 1];
      FirstNonEmptyMeaning(init);
      assert forall j :: 0 <= j < |init| ==> vs[j] == init[j];
      if FirstNonEmpty(init) != "" {
        var i :| 0 <= i < |init| && init[i] == FirstNonEmpty(init) && forall j :: 0 <= j < i ==> init[j] == "";
        assert vs[i] == FirstNonEmpty(vs);
      } else if vs[|vs| - 1] != "" {
        assert vs[|vs| - 1] == FirstNonEmpty(vs);
      }
    }
  }

  /** `AnyOf` is an existential. */
  lemma {:induction false} AnyOfMeaning(vs: seq<seq<char>>, p: seq<char> -> bool)
    ensures AnyOf(vs, p) <==> exists i :: 0 <= i < |vs| && p(vs[i])
  {
    if vs != [] {
      var init := vs[..|vs| - 1];
      AnyOfMeaning(init, p);
      if exists i :: 0 <= i < |vs| && p(vs[i]) {
        var i :| 0 <= i < |vs| && p(vs[i]);
        if i < |init| {
          assert p(init[i]);
        }
      }
      if AnyOf(init, p) {
        var i :| 0 <= i < |init| && p(init[i]);
        assert p(vs[i]);
      }
    }
  }

  /** Two non-empty values that normalise differently. */
  predicate Differ(vs: seq<seq<char>>, norm: seq<char> -> seq<char>, i: int, j: int)
    requires 0 <= i < |vs| && 0 <= j < |vs|
  {
    vs[i] != "" && vs[j] != "" && norm(vs[i]) != norm(vs[j])
  }

  /** The first non-empty value sits at index `k`. */
  predicate FirstAt(vs: seq<seq<char>>, k: int)
    requires 0 <= k < |vs|
  {
    vs[k] != "" && forall m :: 0 <= m < k ==> vs[m] == ""
  }

  /** A conflict is flagged exactly when two non-empty values of the column normalise differently. */
  lemma ConflictingMeaning(vs: seq<seq<char>>, norm: seq<char> -> seq<char>)
    ensures Conflicting(vs, norm) <==> exists i, j :: 0 <= i < |vs| && 0 <= j < |vs| && Differ(vs, norm, i, j)
  {
    ConflictingSound(vs, norm);
    if exists i, j :: 0 <= i < |vs| && 0 <= j < |vs| && Differ(vs, norm, i, j) {
      var i, j :| 0 <= i < |vs| && 0 <= j < |vs| && Differ(vs, norm, i, j);
      FirstNonEmptyMeaning(vs);
      var f := FirstNonEmpty(vs);
      var k :| 0 <= k < |vs| && vs[k] == f && forall m :: 0 <= m < k ==> vs[m] == "";
      assert FirstAt(vs, k);
      if norm(vs[i]) != norm(f) {
        ConflictingComplete(vs, norm, i, k);
      } else {
        ConflictingComplete(vs, norm, j, k);
      }
    }
  }

  lemma {:induction false} ConflictingSound(vs: seq<seq<char>>, norm: seq<char> -> seq<char>)
    ensures Conflicting(vs, norm) ==> exists i, j :: 0 <= i < |vs| && 0 <= j < |vs| && Differ(vs, norm, i, j)
  {
    if vs != [] {
      var init := vs[..|vs| - 1];
      ConflictingSound(init, norm);
      if Conflicting(init, norm) {
        var i, j :| 0 <= i < |init| && 0 <= j < |init| && Differ(init, norm, i, j);
        assert Differ(vs, norm, i, j);
      } else if Conflicting(vs, norm) {
        FirstNonEmptyMeaning(init);
        var k :| 0 <= k < |init| && init[k] == FirstNonEmpty(init);
        assert Differ(vs, norm, |vs| - 1, k);
      }
    }
  }

  /** A value after the first non-empty one that normalises differently from it sets the flag. */
  lemma {:induction false} ConflictingComplete(vs: seq<seq<char>>, norm: seq<char> -> seq<char>, i: int, k: int)
    requires 0 <= k < |vs| && 0 <= i < |vs| && FirstAt(vs, k) && Differ(vs, norm, i, k)
    ensures Conflicting(vs, norm)
  {
    var init := vs[..|vs| - 1];
    assert k != i;
    if i < |init| {
      assert !(i < k);
      assert FirstAt(init, k) by {
        assert forall m :: 0 <= m < k ==> init[m] == vs[m];
      }
      assert Differ(init, norm, i, k);
      ConflictingComplete(init, norm, i, k);
    } else {
      assert k < |init|;
      FirstNonEmptyMeaning(init);
      assert FirstNonEmpty(init) == vs[k] by {
        assert init[k] != "";
        var k' :| 0 <= k' < |init| && init[k'] == FirstNonEmpty(init) && forall m :: 0 <= m < k' ==> init[m] == "";
        assert init[k'] == vs[k'] && init[k] == vs[k];
        assert !(k' < k) && !(k < k');
      }
    }
  }

  /** The union of the levels the rows ask for. */
  function DesiredOfRows(rs: seq<Row>): set<int> {
    if rs == [] then {} else DesiredOfRows(rs[..|rs| - 1]) + DesiredLevels(rs[|rs| - 1])
  }

  lemma {:induction false} DesiredOfRowsMeaning(rs: seq<Row>, c: seq<char>)
    requires c in LevelColumns
    ensures NivelOf(c) in DesiredOfRows(rs) <==> AnyOf(Column(rs, c), ValueIsTrue)
  {
    if rs != [] {
      var init := rs[..|rs| - 1];
      DesiredOfRowsMeaning(init, c);
      assert Column(rs, c)[..|rs| - 1] == Column(init, c);
      var last := rs[|rs| - 1];
      ValueIsTrueOfStripped(Get(last, c));
      assert NivelOf(c) in DesiredLevels(last) <==> ValueIsTrue(Get(last, c));
    }
  }

  lemma {:induction false} DesiredOfRowsRange(rs: seq<Row>, l: int)
    requires l in DesiredOfRows(rs)
    ensures l in {38, 39, 40}
  {
    if l !in DesiredLevels(rs[|rs| - 1]) {
      DesiredOfRowsRange(rs[..|rs| - 1], l);
    }
  }

  /**
   * OR-ing the level flags is sound: the merged record asks for exactly the
   * levels some row of the group asks for.
   */
  lemma MergedDesiredLevels(rs: seq<Row>, cols: seq<seq<char>>)
    requires forall c :: c in LevelColumns ==> c in cols
    ensures DesiredLevels(Merged(rs, cols)) == DesiredOfRows(rs)
  {
    var m := Merged(rs, cols);
    MergedFlagsReadBack();
    forall c | c in LevelColumns
      ensures NivelOf(c) in DesiredOfRows(rs) <==> ValueIsTrue(Get(m, c))
    {
      DesiredOfRowsMeaning(rs, c);
    }
    forall l | l in DesiredOfRows(rs)
      ensures l in DesiredLevels(m)
    {
      DesiredOfRowsRange(rs, l);
      var c := if l == 38 then "Inicial" else if l == 39 then "Primaria" else "Secundaria";
      assert c in LevelColumns && NivelOf(c) == l;
    }
  }

  /** What `_merge_records` holds for one column: the kept value, the level flag, whether a conflict was seen. */
  datatype ColState = ColState(kept: seq<char>, flag: bool, conflict: bool)

  /** The state of column `c` after the first `i` rows, by the specification. */
  ghost function SpecState(rs: seq<Row>, c: seq<char>, i: nat): ColState
    requires i <= |rs|
  {
    if c in LevelColumns then ColState("", AnyOf(Column(rs, c)[..i], ValueIsTrue), false)
    else ColState(FirstNonEmpty(Column(rs, c)[..i]), false, Conflicting(Column(rs, c)[..i], NormalizeText))
  }

  /** The loop body of `_merge_records` for one cell. */
  function NextState(s: ColState, isLevel: bool, v: seq<char>): ColState {
    if isLevel then s.(flag := s.flag || ValueIsTrue(v))
    else if v != "" && s.kept == "" then s.(kept := v)
    else if v != "" && s.kept != "" && NormalizeText(v) != NormalizeText(s.kept) then s.(conflict := true)
    else s
  }

  /** One more row moves every column's specified state by one step of the loop body. */
  lemma SpecStateStep(rs: seq<Row>, c: seq<char>, i: nat)
    requires i < |rs|
    ensures SpecState(rs, c, i + 1) == NextState(SpecState(rs, c, i), c in LevelColumns, Cleaned(rs[i], c))
  {
    assert Column(rs, c)[..i + 1][..i] == Column(rs, c)[..i];
  }

  /** The state the three mutable structures hold for column `c`. */
  function StateOf(merged: map<seq<char>, seq<char>>, flags: map<seq<char>, bool>, conflicts: set<seq<char>>,
                   c: seq<char>): ColState
    requires c in merged
  {
    ColState(merged[c], c in flags && flags[c], c in conflicts)
  }

  /** The merge structures after the first `i` rows. */
  ghost predicate MergeState(rs: seq<Row>, cols: seq<seq<char>>, merged: map<seq<char>, seq<char>>,
                             flags: map<seq<char>, bool>, conflicts: set<seq<char>>, i: nat)
    requires i <= |rs|
  {
    && (forall c :: c in merged <==> c in cols)
    && (forall c :: c in flags <==> c in cols && c in LevelColumns)
    && (forall c :: c in conflicts ==> c in cols)
    && (forall c :: c in cols ==> StateOf(merged, flags, conflicts, c) == SpecState(rs, c, i))
  }

  /**
   * `_merge_records`: each ordinary column keeps its first non-empty value,
   * each level column becomes "SI" when some row's value reads as true and ""
   * otherwise, and the columns whose non-empty values disagree after
   * normalisation are reported (the warning text is not modelled).
   */
  method MergeRecords(rs: seq<Row>, cols: seq<seq<char>>) returns (merged: Row, conflicts: set<seq<char>>)
    requires Distinct(cols)
    ensures merged == Merged(rs, cols)
    ensures conflicts == ConflictColumns(rs, cols)
  {
    var rowsMerged, flags;
    rowsMerged, flags, conflicts := MergeRows(rs, cols);
    merged := FlagsToValues(cols, flags, rowsMerged);
    MergeStateFinal(rs, cols, rowsMerged, flags, conflicts);
  }

  /** The row loop of `_merge_records`, from the empty state through every row. */
  method MergeRows(rs: seq<Row>, cols: seq<seq<char>>)
    returns (merged: Row, flags: map<seq<char>, bool>, conflicts: set<seq<char>>)
    requires Distinct(cols)
    ensures MergeState(rs, cols, merged, flags, conflicts, |rs|)
  {
    merged := map c | c in cols :: "";
    flags := map c | c in cols && c in LevelColumns :: false;
    conflicts := {};
    MergeStateInit(rs, cols);
    for i := 0 to |rs|
      invariant MergeState(rs, cols, merged, flags, conflicts, i)
    {
      merged, flags, conflicts := MergeRow(rs, cols, merged, flags, conflicts, i);
    }
  }

  /** Before any row, every column keeps "", no level is flagged and nothing conflicts. */
  lemma MergeStateInit(rs: seq<Row>, cols: seq<seq<char>>)
    ensures MergeState(rs, cols, map c | c in cols :: "", map c | c in cols && c in LevelColumns :: false, {}, 0)
  {
    forall c | c in cols
      ensures SpecState(rs, c, 0) == ColState("", false, false)
    {
      assert Column(rs, c)[..0] == [];
    }
  }

  /** After every row, the kept values, flags and conflicts are those of `Merged` and `ConflictColumns`. */
  lemma MergeStateFinal(rs: seq<Row>, cols: seq<seq<char>>, merged: Row, flags: map<seq<char>, bool>,
                        conflicts: set<seq<char>>)
    requires MergeState(rs, cols, merged, flags, conflicts, |rs|)
    ensures forall c :: c in cols ==> (if c in flags then FlagText(flags[c]) else merged[c]) == MergedValue(rs, c)
    ensures conflicts == ConflictColumns(rs, cols)
  {
    forall c | c in cols
      ensures (if c in flags then FlagText(flags[c]) else merged[c]) == MergedValue(rs, c)
      ensures c in conflicts <==> c in ConflictColumns(rs, cols)
    {
      assert Column(rs, c)[..|rs|] == Column(rs, c);
      assert StateOf(merged, flags, conflicts, c) == SpecState(rs, c, |rs|);
    }
  }

  /** The closing loop of `_merge_records`: each level column's flag becomes "SI" or "". */
  method FlagsToValues(cols: seq<seq<char>>, flags: map<seq<char>, bool>, merged0: Row) returns (merged: Row)
    requires forall c :: c in merged0 <==> c in cols
    requires forall c :: c in flags ==> c in cols
    ensures forall c :: c in merged <==> c in cols
    ensures forall c :: c in merged ==> merged[c] == if c in flags then FlagText(flags[c]) else merged0[c]
  {
    merged := merged0;
    for j := 0 to |cols|
      invariant forall c :: c in merged <==> c in cols
      invariant forall c :: c in merged && c !in flags ==> merged[c] == merged0[c]
      invariant forall k :: 0 <= k < j && cols[k] in flags ==> merged[cols[k]] == FlagText(flags[cols[k]])
    {
      var c := cols[j];
      if c in flags {
        merged := merged[c := FlagText(flags[c])];
      }
    }
    forall c | c in merged && c in flags
      ensures merged[c] == FlagText(flags[c])
    {
      var k :| 0 <= k < |cols| && cols[k] == c;
    }
  }

  /** One row of `_merge_records`: every column of the row updates the kept value, the flag or the conflicts. */
  method MergeRow(rs: seq<Row>, cols: seq<seq<char>>, merged0: map<seq<char>, seq<char>>,
                  flags0: map<seq<char>, bool>, conflicts0: set<seq<char>>, i: nat)
    returns (merged: map<seq<char>, seq<char>>, flags: map<seq<char>, bool>, conflicts: set<seq<char>>)
    requires Distinct(cols) && i < |rs|
    requires MergeState(rs, cols, merged0, flags0, conflicts0, i)
    ensures MergeState(rs, cols, merged, flags, conflicts, i + 1)
  {
    ghost var before := seq(|cols|, k requires 0 <= k < |cols| => SpecState(rs, cols[k], i));
    merged, flags, conflicts := MergeCells(rs[i], cols, before, merged0, flags0, conflicts0);
    forall c | c in cols
      ensures StateOf(merged, flags, conflicts, c) == SpecState(rs, c, i + 1)
    {
      var k :| 0 <= k < |cols| && cols[k] == c;
      SpecStateStep(rs, c, i);
    }
  }

  /** The loop over the columns of one row, each state moved one step from `before`. */
  method MergeCells(row: Row, cols: seq<seq<char>>, ghost before: seq<ColState>, merged0: map<seq<char>, seq<char>>,
                    flags0: map<seq<char>, bool>, conflicts0: set<seq<char>>)
    returns (merged: map<seq<char>, seq<char>>, flags: map<seq<char>, bool>, conflicts: set<seq<char>>)
    requires Distinct(cols) && |before| == |cols|
    requires forall c :: c in merged0 <==> c in cols
    requires forall c :: c in flags0 <==> c in cols && c in LevelColumns
    requires forall c :: c in conflicts0 ==> c in cols
    requires forall k :: 0 <= k < |cols| ==> StateOf(merged0, flags0, conflicts0, cols[k]) == before[k]
    ensures forall c :: c in merged <==> c in cols
    ensures forall c :: c in flags <==> c in cols && c in LevelColumns
    ensures forall c :: c in conflicts ==> c in cols
    ensures forall k :: 0 <= k < |cols| ==>
              StateOf(merged, flags, conflicts, cols[k]) == NextState(before[k], cols[k] in LevelColumns, Cleaned(row, cols[k]))
  {
    merged, flags, conflicts := merged0, flags0, conflicts0;
    for j := 0 to |cols|
      invariant forall c :: c in merged <==> c in cols
      invariant forall c :: c in flags <==> c in cols && c in LevelColumns
      invariant forall c :: c in conflicts ==> c in cols
      invariant forall k :: 0 <= k < |cols| ==>
                  StateOf(merged, flags, conflicts, cols[k])
                  == if k < j then NextState(before[k], cols[k] in LevelColumns, Cleaned(row, cols[k])) else before[k]
    {
      var c := cols[j];
      ghost var m0, f0, c0 := merged, flags, conflicts;
      merged, flags, conflicts := MergeCell(c, Cleaned(row, c), merged, flags, conflicts);
      forall k | 0 <= k < |cols| && k != j
        ensures StateOf(merged, flags, conflicts, cols[k]) == StateOf(m0, f0, c0, cols[k])
      {
        assert cols[k] != c;
      }
    }
  }

  /** One cell of `_merge_records`: the flag, the kept value or the conflicts of column `c` take one step. */
  method MergeCell(c: seq<char>, value: seq<char>, merged0: map<seq<char>, seq<char>>,
                   flags0: map<seq<char>, bool>, conflicts0: set<seq<char>>)
    returns (merged: map<seq<char>, seq<char>>, flags: map<seq<char>, bool>, conflicts: set<seq<char>>)
    requires c in merged0 && (c in flags0 <==> c in LevelColumns)
    ensures merged.Keys == merged0.Keys && flags.Keys == flags0.Keys && conflicts <= conflicts0 + {c}
    ensures StateOf(merged, flags, conflicts, c) == NextState(StateOf(merged0, flags0, conflicts0, c), c in LevelColumns, value)
    ensures forall x :: x in merged0 && x != c ==> StateOf(merged, flags, conflicts, x) == StateOf(merged0, flags0, conflicts0, x)
  {
    merged, flags, conflicts := merged0, flags0, conflicts0;
    if c in flags {
      if ValueIsTrue(value) {
        flags := flags[c := true];
      }
    } else if value != "" && merged[c] == "" {
      merged := merged[c := value];
    } else if value != "" && merged[c] != "" {
      if NormalizeText(value) != NormalizeText(merged[c]) {
        conflicts := conflicts + {c};
      }
    }
  }
}
