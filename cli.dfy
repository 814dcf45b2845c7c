/**
 * Command-line helpers (santillana_format/cli.py): the group-letter parser,
 * the class-management URL, the school list collected from the listed
 * classes, the file-path test behind the argument rewrite, the token
 * normalisation and the deletion tally of the `clases-api` command. The
 * class listing and each deletion are oracles.
 */
module Cli {
  import opened Text
  import opened Letters

  // ------------------------------------------------------------ group letters

  /** `[\s,]+`, the separators of a group list. */
  predicate GroupSeparator(c: char) {
    IsSpace(c) || c == ','
  }

  /** The outcome of `_parse_grupo_letras`: the letters, or the ValueError listing the bad tokens. */
  datatype Parsed = Groups(letters: seq<char>) | InvalidGroups(tokens: seq<seq<char>>)

  /**
   * `_parse_grupo_letras`: no default letter for empty input; splitting on
   * the separator runs drops the padding `strip` would remove.
   */
  function GrupoLetras(value: seq<char>): Parsed {
    if value == [] then Groups([])
    else
      var s := ScanAll(Tokens(value, GroupSeparator));
      if s.invalid != [] then InvalidGroups(s.invalid) else Groups(s.letters)
  }

  method ParseGrupoLetras(value: seq<char>) returns (r: Parsed)
    ensures r == GrupoLetras(value)
  {
    if value == [] {
      return Groups([]);
    }
    var letras, invalid := ScanTokens(Tokens(value, GroupSeparator));
    if invalid != [] {
      return InvalidGroups(invalid);
    }
    return Groups(letras);
  }

  /** The group tokens of a value are non-empty and hold no separator. */
  lemma SplitTokens(value: seq<char>)
    ensures forall t :: t in Tokens(value, GroupSeparator) ==>
      t != [] && forall i :: 0 <= i < |t| ==> !GroupSeparator(t[i])
  {
    TokensWellFormed(value, GroupSeparator);
    forall t | t in Tokens(value, GroupSeparator)
      ensures t != [] && forall i :: 0 <= i < |t| ==> !GroupSeparator(t[i])
    {
      var k :| 0 <= k < |Tokens(value, GroupSeparator)| && Tokens(value, GroupSeparator)[k] == t;
    }
  }

  /** A split token is compared upper-cased, with nothing to strip. */
  lemma SplitToken(t: seq<char>)
    requires t != [] && forall i :: 0 <= i < |t| ==> !GroupSeparator(t[i])
    ensures Clean(t) == Upper(t)
    ensures Invalid(t) <==> !(|t| == 1 && IsAlpha(t[0]))
    ensures forall c :: Names(t, c) <==> |t| == 1 && IsAlpha(t[0]) && Upper(t) == [c]
  {
    StripUnpadded(t);
  }

  /** The parse succeeds iff every token is a single letter. */
  lemma GrupoLetrasAccepts(value: seq<char>)
    ensures GrupoLetras(value).Groups? <==>
      forall t :: t in Tokens(value, GroupSeparator) ==> |t| == 1 && IsAlpha(t[0])
  {
    var ts := Tokens(value, GroupSeparator);
    SplitTokens(value);
    ScanInvalid(ts);
    forall t | t in ts
      ensures Invalid(t) <==> !(|t| == 1 && IsAlpha(t[0]))
    {
      SplitToken(t);
    }
    if value == [] {
      assert ts == [];
    } else {
      HeadIn(ScanAll(ts).invalid);
    }
  }

  /**
   * A successful parse keeps distinct upper-case letters, exactly those the
   * tokens name; a blank value gives none, with no default group.
   */
  lemma GrupoLetrasLetters(value: seq<char>)
    requires GrupoLetras(value).Groups?
    ensures var ls := GrupoLetras(value).letters;
      (forall i, j :: 0 <= i < j < |ls| ==> ls[i] != ls[j]) &&
      (forall i :: 0 <= i < |ls| ==> IsUpper(ls[i])) &&
      (forall c :: c in ls <==> exists t :: t in Tokens(value, GroupSeparator) && Upper(t) == [c])
    ensures IsBlank(value) ==> GrupoLetras(value) == Groups([])
  {
    var ts := Tokens(value, GroupSeparator);
    SplitTokens(value);
    GrupoLetrasAccepts(value);
    ScanLetters(ts);
    forall c
      ensures (exists t :: t in ts && Names(t, c)) <==> exists t :: t in ts && Upper(t) == [c]
    {
      if exists t :: t in ts && Upper(t) == [c] {
        var t :| t in ts && Upper(t) == [c];
        SplitToken(t);
      }
      if exists t :: t in ts && Names(t, c) {
        var t :| t in ts && Names(t, c);
        SplitToken(t);
      }
    }
    if IsBlank(value) {
      TokensEmptyIff(value, GroupSeparator);
    }
  }

  /** A failed parse reports exactly the tokens that are not single letters. */
  lemma GrupoLetrasRejects(value: seq<char>)
    requires GrupoLetras(value).InvalidGroups?
    ensures forall t :: t in GrupoLetras(value).tokens <==>
      t in Tokens(value, GroupSeparator) && !(|t| == 1 && IsAlpha(t[0]))
  {
    var ts := Tokens(value, GroupSeparator);
    SplitTokens(value);
    ScanInvalid(ts);
    forall t | t in ts
      ensures Invalid(t) <==> !(|t| == 1 && IsAlpha(t[0]))
    {
      SplitToken(t);
    }
  }

  // ------------------------------------------------------------------- URLs

  /** `GESTION_ESCOLAR_URL` for a company and a cycle. */
  function GestionEscolarBase(empresaId: int, cicloId: int): seq<char> {
    "https://www.uno-internacional.com/pegasus-api/gestionEscolar/empresas/"
      + IntToString(empresaId) + "/ciclos/" + IntToString(cicloId) + "/clases"
  }

  /** `_build_gestion_escolar_url`. */
  function GestionEscolarUrl(empresaId: int, cicloId: int, colegioId: Option<int>, claseId: Option<int>): seq<char> {
    var base := GestionEscolarBase(empresaId, cicloId);
    if claseId.Some? then base + "/" + IntToString(claseId.value)
    else if colegioId.Some? then base + "?colegioId=" + IntToString(colegioId.value)
    else base
  }

  /** What a class-management URL addresses. */
  datatype Target = AllClases | ClasesOf(colegioId: int) | OneClase(claseId: int) | Elsewhere

  /** Reads back what a URL under `base` addresses. */
  function Addressed(base: seq<char>, url: seq<char>): Target {
    if url == base then AllClases
    else if base + "/" <= url && ParseInt(url[|base| + 1..]).Some? then
      OneClase(ParseInt(url[|base| + 1..]).value)
    else if base + "?colegioId=" <= url && ParseInt(url[|base| + 11..]).Some? then
      ClasesOf(ParseInt(url[|base| + 11..]).value)
    else Elsewhere
  }

  /** A class URL reads back as that class. */
  lemma AddressedClase(base: seq<char>, claseId: int)
    ensures Addressed(base, base + "/" + IntToString(claseId)) == OneClase(claseId)
  {
    var url := base + "/" + IntToString(claseId);
    assert url[|base| + 1..] == IntToString(claseId);
    ParseIntOfIntToString(claseId);
  }

  /** A school URL reads back as that school's classes. */
  lemma AddressedColegio(base: seq<char>, colegioId: int)
    ensures Addressed(base, base + "?colegioId=" + IntToString(colegioId)) == ClasesOf(colegioId)
  {
    var url := base + "?colegioId=" + IntToString(colegioId);
    assert url[|base|] == '?';
    assert !(base + "/" <= url) by {
      assert (base + "/")[|base|] == '/';
    }
    assert url[|base| + 11..] == IntToString(colegioId);
    ParseIntOfIntToString(colegioId);
  }

  /**
   * The class id takes precedence over the school id, which takes
   * precedence over the bare collection, and the id reads back from the URL.
   */
  lemma GestionEscolarUrlTarget(empresaId: int, cicloId: int, colegioId: Option<int>, claseId: Option<int>)
    ensures Addressed(GestionEscolarBase(empresaId, cicloId), GestionEscolarUrl(empresaId, cicloId, colegioId, claseId)) ==
      if claseId.Some? then OneClase(claseId.value)
      else if colegioId.Some? then ClasesOf(colegioId.value)
      else AllClases
  {
    var base := GestionEscolarBase(empresaId, cicloId);
    if claseId.Some? {
      AddressedClase(base, claseId.value);
    } else if colegioId.Some? {
      AddressedColegio(base, colegioId.value);
    }
  }

  // ----------------------------------------------------------- listed classes

  /** `colegioNivelCiclo.colegio` of a listed class: its id, if any, and `str(colegio or "")`. */
  datatype ColegioRef = ColegioRef(id: Option<int>, nombre: seq<char>)

  /** A listed class: `geClaseId`, if any, and the school it belongs to, if the payload has one. */
  datatype ClaseItem = ClaseItem(claseId: Option<int>, colegio: Option<ColegioRef>)

  /** One entry of `_collect_colegios`' result. */
  datatype Colegio = Colegio(id: int, nombre: string)

  /** The class names a school with an id. */
  predicate NamesColegio(item: ClaseItem, id: int) {
    item.colegio.Some? && item.colegio.value.id == Some(id)
  }

  /** The school map `_collect_colegios` fills, one class after another: a later name replaces an earlier one. */
  function ColegioMap(items: seq<ClaseItem>): map<int, seq<char>> {
    if items == [] then map[]
    else
      var m := ColegioMap(items[..|items| - 1]);
      var item := items[|items| - 1];
      if item.colegio.Some? && item.colegio.value.id.Some? then
        m[item.colegio.value.id.value := item.colegio.value.nombre]
      else m
  }

  /** The schools are those some class names. */
  lemma {:induction false} ColegioMapKeys(items: seq<ClaseItem>)
    ensures forall id :: id in ColegioMap(items) <==> exists k :: 0 <= k < |items| && NamesColegio(items[k], id)
  {
    if items != [] {
      var init := items[..|items| - 1];
      ColegioMapKeys(init);
      forall id | exists k :: 0 <= k < |items| && NamesColegio(items[k], id)
        ensures id in ColegioMap(items)
      {
        var k :| 0 <= k < |items| && NamesColegio(items[k], id);
        if k < |init| {
          assert init[k] == items[k];
        }
      }
      forall id | id in ColegioMap(items)
        ensures exists k :: 0 <= k < |items| && NamesColegio(items[k], id)
      {
        if id in ColegioMap(init) {
          var k :| 0 <= k < |init| && NamesColegio(init[k], id);
          assert items[k] == init[k];
        } else {
          assert NamesColegio(items[|items| - 1], id);
        }
      }
    }
  }

  /** The last class that names a school decides its name. */
  lemma {:induction false} ColegioMapLastWins(items: seq<ClaseItem>, k: nat, id: int)
    requires k < |items| && NamesColegio(items[k], id)
    requires forall j :: k < j < |items| ==> !NamesColegio(items[j], id)
    ensures id in ColegioMap(items) && ColegioMap(items)[id] == items[k].colegio.value.nombre
  {
    var init := items[..|items| - 1];
    if k < |items| - 1 {
      forall j | k < j < |init|
        ensures !NamesColegio(init[j], id)
      {
        assert init[j] == items[j];
      }
      assert init[k] == items[k];
      ColegioMapLastWins(init, k, id);
    }
  }

  /** `_collect_colegios`: the school map, then its entries sorted by id. */
  method CollectColegios(items: seq<ClaseItem>) returns (colegios: seq<Colegio>)
    ensures forall i, j :: 0 <= i < j < |colegios| ==> colegios[i].id < colegios[j].id
    ensures forall i :: 0 <= i < |colegios| ==>
      colegios[i].id in ColegioMap(items) && colegios[i].nombre == ColegioMap(items)[colegios[i].id]
    ensures forall id :: id in ColegioMap(items) ==> exists i :: 0 <= i < |colegios| && colegios[i].id == id
  {
    var m: map<int, seq<char>> := map[];
    for k := 0 to |items|
      invariant m == ColegioMap(items[..k])
    {
      assert items[..k + 1][..k] == items[..k];
      var item := items[k];
      if item.colegio.Some? && item.colegio.value.id.Some? {
        m := m[item.colegio.value.id.value := item.colegio.value.nombre];
      }
    }
    assert items[..|items|] == items;
    var ids := SortSet(m.Keys);
    forall i | 0 <= i < |ids|
      ensures ids[i] in m
    {
      assert ids[i] in ids;
    }
    colegios := seq(|ids|, i requires 0 <= i < |ids| => Colegio(ids[i], m[ids[i]]));
    forall id | id in m
      ensures exists i :: 0 <= i < |colegios| && colegios[i].id == id
    {
      var i :| 0 <= i < |ids| && ids[i] == id;
      assert colegios[i].id == id;
    }
  }

  // --------------------------------------------------------- argument rewrite

  /** The file extensions `_looks_like_file_path` accepts. */
  const FileExtensions: set<seq<char>> := {".xlsx", ".csv", ".txt"}

  /** `Path(value).name`: the last non-empty `/`-separated component. */
  function PathName(value: seq<char>): seq<char> {
    var parts := Tokens(value, c => c == '/');
    if parts == [] then [] else parts[|parts| - 1]
  }

  /** Index of the last `.` in `name`, or -1. */
  function LastDot(name: seq<char>): (i: int)
    ensures -1 <= i < |name|
    ensures i >= 0 ==> name[i] == '.'
    ensures forall j :: i < j < |name| ==> name[j] != '.'
  {
    if name == [] then -1
    else if name[|name| - 1] == '.' then |name| - 1
    else LastDot(name[..|name| - 1])
  }

  /** `Path.suffix` of a name: from its last dot, unless that dot leads or ends it. */
  function Suffix(name: seq<char>): seq<char> {
    var i := LastDot(name);
    if 0 < i < |name| - 1 then name[i..] else []
  }

  /** `_looks_like_file_path`. */
  predicate LooksLikeFilePath(value: seq<char>) {
    value != [] && Lower(Suffix(PathName(value))) in FileExtensions
  }

  /** A dot followed by dot-free text, as every data-file extension is. */
  predicate ExtensionShaped(e: seq<char>) {
    |e| >= 2 && e[0] == '.' && forall j :: 0 < j < |e| ==> e[j] != '.'
  }

  /** A suffix that is a dot and a dot-free extension is read from the end of the name. */
  lemma SuffixIs(name: seq<char>, e: seq<char>)
    requires ExtensionShaped(e)
    ensures Lower(Suffix(name)) == e <==> |name| > |e| && Lower(name[|name| - |e|..]) == e
  {
    var d := |name| - |e|;
    if |name| > |e| && Lower(name[d..]) == e {
      assert LowerChar(name[d]) == e[0];
      forall j | d < j < |name|
        ensures name[j] != '.'
      {
        assert LowerChar(name[j]) == e[j - d];
      }
      assert LastDot(name) == d;
    }
  }

  lemma ExtensionsShaped()
    ensures forall e :: e in FileExtensions ==> ExtensionShaped(e)
  {
    forall e | e in FileExtensions
      ensures ExtensionShaped(e)
    {
      assert e == ".xlsx" || e == ".csv" || e == ".txt";
    }
  }

  /** A name has one of some extensions as its suffix iff it ends in one after another character. */
  lemma SuffixAmong(name: seq<char>, exts: set<seq<char>>)
    requires forall e :: e in exts ==> ExtensionShaped(e)
    ensures Lower(Suffix(name)) in exts <==>
      exists e :: e in exts && |name| > |e| && Lower(name[|name| - |e|..]) == e
  {
    var x := Lower(Suffix(name));
    if x in exts {
      SuffixIs(name, x);
    }
    if exists e :: e in exts && |name| > |e| && Lower(name[|name| - |e|..]) == e {
      var e :| e in exts && |name| > |e| && Lower(name[|name| - |e|..]) == e;
      SuffixIs(name, e);
    }
  }

  /**
   * A path looks like a data file iff its last component, lower-cased,
   * ends in one of the extensions after at least one other character.
   */
  lemma LooksLikeFilePathIff(value: seq<char>)
    ensures LooksLikeFilePath(value) <==> (value != [] &&
      exists e :: e in FileExtensions && |PathName(value)| > |e| &&
        Lower(PathName(value)[|PathName(value)| - |e|..]) == e)
  {
    ExtensionsShaped();
    SuffixAmong(PathName(value), FileExtensions);
  }

  /** The sub-commands `main` knows. */
  const Commands: set<seq<char>> := {"clases", "depurar", "clases-api"}

  /** An argument that is a flag. */
  predicate IsFlag(arg: seq<char>) {
    |arg| > 0 && arg[0] == '-'
  }

  /** The argument rewrite at the start of `main`. */
  function RewriteArgv(argv: seq<seq<char>>): seq<seq<char>> {
    if argv != [] && argv[0] !in Commands && !IsFlag(argv[0]) then
      if |argv| >= 2 && LooksLikeFilePath(argv[0]) && LooksLikeFilePath(argv[1]) then ["depurar"] + argv
      else ["clases"] + argv
    else argv
  }

  /**
   * The rewrite only prepends a command: known commands and flags are left
   * alone, the result starts with a known command or a flag, and two file
   * paths select `depurar`; so rewriting twice is rewriting once.
   */
  lemma RewriteArgvDispatches(argv: seq<seq<char>>)
    ensures var r := RewriteArgv(argv);
      |r| >= |argv| && r[|r| - |argv|..] == argv &&
      (argv != [] ==> r[0] in Commands || IsFlag(r[0])) &&
      (argv != [] && (argv[0] in Commands || IsFlag(argv[0])) ==> r == argv) &&
      (r != argv ==> (r[0] == "depurar" <==> |argv| >= 2 && LooksLikeFilePath(argv[0]) && LooksLikeFilePath(argv[1])))
    ensures RewriteArgv(RewriteArgv(argv)) == RewriteArgv(argv)
  {
    assert "depurar" in Commands && "clases" in Commands;
    assert "depurar" != "clases";
  }

  // ------------------------------------------------------------------ token

  /** "bearer ". */
  const BearerPrefix: seq<char> := "bearer "

  /**
   * The token of `_run_clases_api`: the stripped argument, else the stripped
   * environment value; a case-insensitive `Bearer ` prefix removed; `None`
   * when nothing is left.
   */
  function ResolveToken(arg: seq<char>, env: seq<char>): Option<seq<char>> {
    var t := if Strip(arg) != [] then Strip(arg) else Strip(env);
    var u := if |t| >= 7 && Lower(t[..7]) == BearerPrefix then Strip(t[7..]) else t;
    if u == [] then None else Some(u)
  }

  /** A resolved token is never empty nor padded. */
  lemma ResolvedUnpadded(arg: seq<char>, env: seq<char>)
    ensures ResolveToken(arg, env).Some? ==>
      var t := ResolveToken(arg, env).value; t != [] && !IsSpace(t[0]) && !IsSpace(t[|t| - 1])
  {
  }

  /** A blank argument defers to the environment. */
  lemma ResolveTokenFallback(arg: seq<char>, env: seq<char>)
    ensures IsBlank(arg) ==> ResolveToken(arg, env) == ResolveToken(env, [])
  {
    StripEmptyIffBlank(arg);
  }

  /** An unpadded token after a `Bearer ` prefix, in any case, comes back as itself. */
  lemma ResolveTokenBearer(p: seq<char>, w: seq<char>, env: seq<char>)
    requires |p| == 7 && Lower(p) == BearerPrefix
    requires w != [] && !IsSpace(w[0]) && !IsSpace(w[|w| - 1])
    ensures ResolveToken(p + w, env) == Some(w)
  {
    var s := p + w;
    assert LowerChar(p[0]) == Lower(p)[0] == 'b';
    BearerFirst(p[0]);
    BearerUnpadded(p, w);
    assert s[..7] == p && s[7..] == w;
    StripUnpadded(w);
    ResolvePrefixed(s, env);
  }

  lemma BearerUnpadded(p: seq<char>, w: seq<char>)
    requires p != [] && !IsSpace(p[0])
    requires w != [] && !IsSpace(w[|w| - 1])
    ensures Strip(p + w) == p + w
  {
    assert (p + w)[0] == p[0] && (p + w)[|p + w| - 1] == w[|w| - 1];
    StripUnpadded(p + w);
  }

  /** A character that lower-cases to `b` is `b` or `B`, not whitespace. */
  lemma BearerFirst(c: char)
    requires LowerChar(c) == 'b'
    ensures !IsSpace(c)
  {
    if !IsUpper(c) {
      assert c == LowerChar(c);
    }
  }

  lemma ResolvePrefixed(arg: seq<char>, env: seq<char>)
    requires Strip(arg) == arg && |arg| >= 7 && Lower(arg[..7]) == BearerPrefix
    ensures ResolveToken(arg, env) == if Strip(arg[7..]) == [] then None else Some(Strip(arg[7..]))
  {
  }

  /** An unpadded token without the prefix comes back as itself. */
  lemma ResolveTokenPlain(w: seq<char>, env: seq<char>)
    requires w != [] && !IsSpace(w[0]) && !IsSpace(w[|w| - 1])
    requires !(|w| >= 7 && Lower(w[..7]) == BearerPrefix)
    ensures ResolveToken(w, env) == Some(w)
  {
    StripUnpadded(w);
  }

  // ------------------------------------------------------------ deletion tally

  /** An entry of the `errors` list of `_run_clases_api`. */
  datatype DeleteError = MissingId | DeleteFailed(claseId: int)

  /** The errors of deleting every listed class; `deleted(k)` is whether the `k`-th deletion succeeds. */
  function DeleteErrors(items: seq<ClaseItem>, deleted: nat -> bool): seq<DeleteError> {
    if items == [] then []
    else
      var k := |items| - 1;
      DeleteErrors(items[..k], deleted) +
        if items[k].claseId.None? then [MissingId]
        else if deleted(k) then []
        else [DeleteFailed(items[k].claseId.value)]
  }

  /** The number of classes that have an id and whose deletion succeeds. */
  function Deleted(items: seq<ClaseItem>, deleted: nat -> bool): nat {
    if items == [] then 0
    else
      var k := |items| - 1;
      Deleted(items[..k], deleted) + if items[k].claseId.Some? && deleted(k) then 1 else 0
  }

  /**
   * Every class either is deleted or adds exactly one error, so
   * `len(clases) - len(errors)` counts the deleted classes.
   */
  lemma {:induction false} DeleteTally(items: seq<ClaseItem>, deleted: nat -> bool)
    ensures |DeleteErrors(items, deleted)| + Deleted(items, deleted) == |items|
    ensures DeleteErrors(items, deleted) == [] <==> Deleted(items, deleted) == |items|
  {
    if items != [] {
      DeleteTally(items[..|items| - 1], deleted);
    }
  }

  /** The deletion loop of `_run_clases_api`. */
  method DeleteAll(items: seq<ClaseItem>, deleted: nat -> bool) returns (errors: seq<DeleteError>)
    ensures errors == DeleteErrors(items, deleted)
  {
    errors := [];
    for k := 0 to |items|
      invariant errors == DeleteErrors(items[..k], deleted)
    {
      assert items[..k + 1][..k] == items[..k];
      var claseId := items[k].claseId;
      if claseId.None? {
        errors := errors + [MissingId];
        continue;
      }
      if !deleted(k) {
        errors := errors + [DeleteFailed(claseId.value)];
      }
    }
    assert items[..|items|] == items;
  }

  /** The class listing as the command sees it: the classes, or the error that ends the command. */
  datatype Listing = Listed(items: seq<ClaseItem>) | ListingFailed(message: seq<char>)

  /** What `_run_clases_api` reports: its exit code, the deleted count, the errors and the schools. */
  datatype ApiRun = ApiRun(code: int, eliminadas: int, errors: seq<DeleteError>, colegios: seq<Colegio>)

  /**
   * `_run_clases_api` after argument parsing: the token, the listing (an
   * oracle, fetched only with a token), and, with `--confirm-delete`, one
   * deletion per listed class, the school list and the tally.
   */
  method RunClasesApi(tokenArg: seq<char>, env: seq<char>, listing: Listing, confirmDelete: bool,
                      deleted: nat -> bool) returns (run: ApiRun)
    ensures run.code == 1 <==>
      ResolveToken(tokenArg, env).None? || listing.ListingFailed? ||
      (listing.items != [] && confirmDelete && DeleteErrors(listing.items, deleted) != [])
    ensures run.code == 0 || run.code == 1
    ensures ResolveToken(tokenArg, env).Some? && listing.Listed? && listing.items != [] && confirmDelete ==>
      run.errors == DeleteErrors(listing.items, deleted) &&
      run.eliminadas == Deleted(listing.items, deleted) &&
      |run.colegios| == |ColegioMap(listing.items)|
    ensures !(ResolveToken(tokenArg, env).Some? && listing.Listed? && listing.items != [] && confirmDelete) ==>
      run == ApiRun(run.code, 0, [], [])
  {
    var token := ResolveToken(tokenArg, env);
    if token.None? {
      return ApiRun(1, 0, [], []);
    }
    if listing.ListingFailed? {
      return ApiRun(1, 0, [], []);
    }
    var clases := listing.items;
    if clases == [] || !confirmDelete {
      return ApiRun(0, 0, [], []);
    }
    var errors := DeleteAll(clases, deleted);
    var colegios := CollectColegios(clases);
    DeleteTally(clases, deleted);
    CollectedCount(clases, colegios);
    var eliminadas := |clases| - |errors|;
    var code := if errors != [] then 1 else 0;
    return ApiRun(code, eliminadas, errors, colegios);
  }

  /** The school list has one entry per school. */
  lemma CollectedCount(items: seq<ClaseItem>, colegios: seq<Colegio>)
    requires forall i, j :: 0 <= i < j < |colegios| ==> colegios[i].id < colegios[j].id
    requires forall i :: 0 <= i < |colegios| ==> colegios[i].id in ColegioMap(items)
    requires forall id :: id in ColegioMap(items) ==> exists i :: 0 <= i < |colegios| && colegios[i].id == id
    ensures |colegios| == |ColegioMap(items)|
  {
    var ids := seq(|colegios|, i requires 0 <= i < |colegios| => colegios[i].id);
    forall id ensures id in ColegioMap(items).Keys <==> id in ids {
      if id in ColegioMap(items) {
        var i :| 0 <= i < |colegios| && colegios[i].id == id;
        assert ids[i] == id;
      }
    }
    DistinctCount(ids, ColegioMap(items).Keys);
  }
}
