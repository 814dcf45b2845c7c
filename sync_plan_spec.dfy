/**
 * What `sync_profesores` (santillana_format/profesores_sync.py) decides, as
 * functions: the key index of the listed personas, the priority match of a
 * spreadsheet group against it, the levels each matched persona should hold,
 * the levels to switch on and off, and the per-persona plan of the sync loop.
 */
module ProfesoresSyncSpec {
  import opened Text
  import opened SyncRecords
  import opened SyncGroupsSpec
  import P = Profesores

  // ---------------------------------------------------------------- `_build_api_index`

  /** The record `_build_api_index` reads from one listed persona; a missing value reads as `None`. */
  function ApiIdentity(e: P.ApiProfesor): Identity {
    Identity(IntToString(e.personaId), CellText(e.dni), CellText(e.login), CellText(e.email),
             CellText(e.nombre), CellText(e.apellidoPaterno), CellText(e.apellidoMaterno))
  }

  /** The keys of one listed persona. */
  function ApiKeys(e: P.ApiProfesor): set<seq<char>> {
    AllKeys(ApiIdentity(e))
  }

  /** The index after one more persona: the keys nobody holds yet go to it. */
  function Claim(index: map<seq<char>, int>, keys: set<seq<char>>, p: int): map<seq<char>, int> {
    index + map k | k in keys && k !in index :: p
  }

  /** The duplicate-key warnings one persona raises: its keys already held by another persona. */
  function Clashes(index: map<seq<char>, int>, keys: set<seq<char>>, p: int): set<(seq<char>, int)> {
    set k | k in keys && k in index && index[k] != p :: (k, p)
  }

  /** A listed persona as the index sees it: its keys (`entry["keys"]`) and its id. */
  datatype Claimant = Claimant(keys: set<seq<char>>, personaId: int)

  /** The claimants of the listed personas, in list order. */
  function Claimants(es: seq<P.ApiProfesor>): (cs: seq<Claimant>)
    ensures |cs| == |es|
  {
    if es == [] then []
    else Claimants(es[..|es| - 1]) + [Claimant(ApiKeys(es[|es| - 1]), es[|es| - 1].personaId)]
  }

  /** Claimant `i` holds the keys and the id of persona `i`. */
  lemma {:induction false} ClaimantsAt(es: seq<P.ApiProfesor>, i: nat)
    requires i < |es|
    ensures Claimants(es)[i] == Claimant(ApiKeys(es[i]), es[i].personaId)
  {
    if i < |es| - 1 {
      ClaimantsAt(es[..|es| - 1], i);
    }
  }

  /** The index and the warnings after one more listed persona. */
  lemma ApiIndexSnoc(es: seq<P.ApiProfesor>, i: nat)
    requires i < |es|
    ensures var cs, c := Claimants(es[..i]), Claimant(ApiKeys(es[i]), es[i].personaId);
            && Index(Claimants(es[..i + 1])) == Claim(Index(cs), c.keys, c.personaId)
            && IndexClashes(Claimants(es[..i + 1])) == IndexClashes(cs) + Clashes(Index(cs), c.keys, c.personaId)
  {
    var q := es[..i + 1];
    assert q[..|q| - 1] == es[..i] && q[|q| - 1] == es[i];
    var cs := Claimants(q);
    assert cs[..|cs| - 1] == Claimants(es[..i]);
  }

  /** Claiming one more key: a key held by another persona stays; otherwise it goes to the claimant. */
  lemma ClaimStep(index0: map<seq<char>, int>, done: set<seq<char>>, key: seq<char>, p: int)
    requires key !in done
    ensures var cur := Claim(index0, done, p);
            Claim(index0, done + {key}, p) == if key in cur && cur[key] != p then cur else cur[key := p]
  {
    var cur := Claim(index0, done, p);
    if !(key in cur && cur[key] != p) {
      assert Claim(index0, done + {key}, p) == cur[key := p];
    }
  }

  /** Claiming one more key held by another persona warns about it, and only then. */
  lemma ClashStep(index0: map<seq<char>, int>, done: set<seq<char>>, key: seq<char>, p: int)
    requires key !in done
    ensures var cur := Claim(index0, done, p);
            Clashes(index0, done + {key}, p) == Clashes(index0, done, p) + if key in cur && cur[key] != p then {(key, p)} else {}
  {
  }

  /** The key index built from the claimants, in list order. */
  function Index(cs: seq<Claimant>): map<seq<char>, int>
  {
    if cs == [] then map[]
    else Claim(Index(cs[..|cs| - 1]), cs[|cs| - 1].keys, cs[|cs| - 1].personaId)
  }

  /** The duplicate-key warnings of the claimants, as (key, persona) pairs. */
  function IndexClashes(cs: seq<Claimant>): set<(seq<char>, int)>
  {
    if cs == [] then {}
    else IndexClashes(cs[..|cs| - 1]) + Clashes(Index(cs[..|cs| - 1]), cs[|cs| - 1].keys, cs[|cs| - 1].personaId)
  }

  /** The index and the warnings after one more claimant. */
  lemma IndexSnoc(cs: seq<Claimant>, i: nat)
    requires i < |cs|
    ensures Index(cs[..i + 1]) == Claim(Index(cs[..i]), cs[i].keys, cs[i].personaId)
    ensures IndexClashes(cs[..i + 1]) == IndexClashes(cs[..i]) + Clashes(Index(cs[..i]), cs[i].keys, cs[i].personaId)
  {
    var q := cs[..i + 1];
    assert q[..|q| - 1] == cs[..i] && q[|q| - 1] == cs[i];
  }

  /** Every key of some claimant is in the index, and nothing else. */
  lemma {:induction false} IndexDomain(cs: seq<Claimant>, k: seq<char>)
    ensures k in Index(cs) <==> exists i :: 0 <= i < |cs| && k in cs[i].keys
  {
    if cs != [] {
      var init := cs[..|cs| - 1];
      IndexDomain(init, k);
      if k in Index(init) {
        var i :| 0 <= i < |init| && k in init[i].keys;
        assert cs[i] == init[i];
      } else {
        forall i | 0 <= i < |cs| - 1
          ensures k !in cs[i].keys
        {
          assert cs[i] == init[i];
        }
      }
    }
  }

  /** A key, once in the index, keeps its persona as later claimants are added. */
  lemma {:induction false} IndexPrefix(cs: seq<Claimant>, n: nat, k: seq<char>)
    requires n <= |cs| && k in Index(cs[..n])
    ensures k in Index(cs) && Index(cs)[k] == Index(cs[..n])[k]
  {
    if n == |cs| {
      assert cs[..n] == cs;
    } else {
      var init := cs[..|cs| - 1];
      assert init[..n] == cs[..n];
      IndexPrefix(init, n, k);
    }
  }

  /** The warnings only grow as claimants are added. */
  lemma {:induction false} IndexClashesPrefix(cs: seq<Claimant>, n: nat)
    requires n <= |cs|
    ensures IndexClashes(cs[..n]) <= IndexClashes(cs)
  {
    if n == |cs| {
      assert cs[..n] == cs;
    } else {
      var init := cs[..|cs| - 1];
      assert init[..n] == cs[..n];
      IndexClashesPrefix(init, n);
    }
  }

  /** A free key of the claiming persona goes to it; a held key keeps its persona. */
  lemma ClaimTakes(index: map<seq<char>, int>, keys: set<seq<char>>, p: int, k: seq<char>)
    requires k in keys || k in index
    ensures k in Claim(index, keys, p)
    ensures Claim(index, keys, p)[k] == if k in index then index[k] else p
  {
  }

  /** On a collision the first claimant of the key keeps it. */
  lemma IndexFirst(cs: seq<Claimant>, i: nat, k: seq<char>)
    requires i < |cs| && k in cs[i].keys
    requires forall j :: 0 <= j < i ==> k !in cs[j].keys
    ensures k in Index(cs) && Index(cs)[k] == cs[i].personaId
  {
    var pre, q := cs[..i], cs[..i + 1];
    forall j | 0 <= j < |pre|
      ensures k !in pre[j].keys
    {
      assert pre[j] == cs[j];
    }
    IndexDomain(pre, k);
    assert q[..|q| - 1] == pre && q[|q| - 1] == cs[i];
    ClaimTakes(Index(pre), cs[i].keys, cs[i].personaId, k);
    IndexPrefix(cs, i + 1, k);
  }

  /**
   * A claimant is warned about exactly the keys it lists that the index gives
   * to another persona.
   */
  lemma IndexClashesComplete(cs: seq<Claimant>, i: nat, k: seq<char>)
    requires i < |cs| && k in cs[i].keys
    ensures k in Index(cs)
    ensures Index(cs)[k] != cs[i].personaId ==> (k, cs[i].personaId) in IndexClashes(cs)
  {
    var pre, q := cs[..i], cs[..i + 1];
    var p := cs[i].personaId;
    assert q[..|q| - 1] == pre && q[|q| - 1] == cs[i];
    ClaimTakes(Index(pre), cs[i].keys, p, k);
    IndexPrefix(cs, i + 1, k);
    if k in Index(pre) && Index(cs)[k] != p {
      assert (k, p) in Clashes(Index(pre), cs[i].keys, p);
      assert (k, p) in IndexClashes(q);
      IndexClashesPrefix(cs, i + 1);
    }
  }

  /** Every warning names a key the index gives to another persona that also lists it. */
  lemma {:induction false} IndexClashesSound(cs: seq<Claimant>, k: seq<char>, p: int)
    requires (k, p) in IndexClashes(cs)
    ensures k in Index(cs) && Index(cs)[k] != p
    ensures exists i :: 0 <= i < |cs| && cs[i].personaId == p && k in cs[i].keys
  {
    var init := cs[..|cs| - 1];
    assert cs[..|cs| - 1] == init;
    if (k, p) in IndexClashes(init) {
      IndexClashesSound(init, k, p);
      var i :| 0 <= i < |init| && init[i].personaId == p && k in init[i].keys;
      assert cs[i] == init[i];
    } else {
      assert cs[|cs| - 1].personaId == p && k in Index(init);
    }
    IndexPrefix(cs, |cs| - 1, k);
  }

  // ---------------------------------------------------------------- `_match_by_priority`

  /** The keys of type `t` of a group that the index holds. */
  function Hits(kbt: map<KeyType, set<seq<char>>>, index: map<seq<char>, int>, t: KeyType): set<seq<char>> {
    if t in kbt then set k | k in kbt[t] && k in index else {}
  }

  /** The first key type of `ts` with a key in the index. */
  function FirstHit(kbt: map<KeyType, set<seq<char>>>, index: map<seq<char>, int>, ts: seq<KeyType>): (r: Option<KeyType>)
    ensures r.Some? ==> r.value in ts && Hits(kbt, index, r.value) != {}
  {
    if ts == [] then None
    else if Hits(kbt, index, ts[0]) != {} then Some(ts[0])
    else FirstHit(kbt, index, ts[1..])
  }

  /**
   * What `_match_by_priority` may return: nothing when no key hits, else the
   * persona of one hit of the first type, in priority order, that has one.
   * Which hit, when a merged group holds several keys of that type, depends on
   * the iteration order of a set.
   */
  ghost predicate PriorityMatch(kbt: map<KeyType, set<seq<char>>>, index: map<seq<char>, int>, r: Option<int>) {
    match FirstHit(kbt, index, KeyPriority)
    case None => r == None
    case Some(t) => r.Some? && exists k :: k in Hits(kbt, index, t) && index[k] == r.value
  }

  /** The first type with a hit is `ts[i]` when no earlier type has one. */
  lemma {:induction false} FirstHitAt(kbt: map<KeyType, set<seq<char>>>, index: map<seq<char>, int>, ts: seq<KeyType>, i: nat)
    requires i < |ts| && Hits(kbt, index, ts[i]) != {}
    requires forall j :: 0 <= j < i ==> Hits(kbt, index, ts[j]) == {}
    ensures FirstHit(kbt, index, ts) == Some(ts[i])
  {
    if i > 0 {
      assert Hits(kbt, index, ts[0]) == {};
      FirstHitAt(kbt, index, ts[1..], i - 1);
    }
  }

  /** No type has a hit exactly when there is no first one. */
  lemma {:induction false} FirstHitNone(kbt: map<KeyType, set<seq<char>>>, index: map<seq<char>, int>, ts: seq<KeyType>)
    ensures FirstHit(kbt, index, ts) == None <==> forall j :: 0 <= j < |ts| ==> Hits(kbt, index, ts[j]) == {}
  {
    if ts != [] {
      FirstHitNone(kbt, index, ts[1..]);
      assert forall j :: 1 <= j < |ts| ==> ts[j] == ts[1..][j - 1];
    }
  }

  /** The first type with a hit has no earlier type with one. */
  lemma {:induction false} FirstHitEarliest(kbt: map<KeyType, set<seq<char>>>, index: map<seq<char>, int>, ts: seq<KeyType>)
    requires FirstHit(kbt, index, ts).Some?
    ensures exists i :: 0 <= i < |ts| && ts[i] == FirstHit(kbt, index, ts).value &&
                        forall j :: 0 <= j < i ==> Hits(kbt, index, ts[j]) == {}
  {
    if Hits(kbt, index, ts[0]) == {} {
      FirstHitEarliest(kbt, index, ts[1..]);
      var i :| 0 <= i < |ts[1..]| && ts[1..][i] == FirstHit(kbt, index, ts[1..]).value &&
               forall j :: 0 <= j < i ==> Hits(kbt, index, ts[1..][j]) == {};
      assert ts[i + 1] == ts[1..][i];
      forall j | 0 <= j < i + 1
        ensures Hits(kbt, index, ts[j]) == {}
      {
        if j > 0 { assert ts[j] == ts[1..][j - 1]; }
      }
    } else {
      assert ts[0] == FirstHit(kbt, index, ts).value;
    }
  }

  /**
   * The match, in terms of the key types: none when no key of any type is in
   * the index; otherwise the persona of a hit of some type, with no hit of an
   * earlier type in the priority order.
   */
  lemma PriorityMatchMeaning(kbt: map<KeyType, set<seq<char>>>, index: map<seq<char>, int>, r: Option<int>)
    requires PriorityMatch(kbt, index, r)
    ensures r == None <==> forall t :: Hits(kbt, index, t) == {}
    ensures r.Some? ==> exists i, k :: 0 <= i < |KeyPriority| && k in Hits(kbt, index, KeyPriority[i]) &&
                                       index[k] == r.value &&
                                       forall j :: 0 <= j < i ==> Hits(kbt, index, KeyPriority[j]) == {}
  {
    FirstHitNone(kbt, index, KeyPriority);
    if FirstHit(kbt, index, KeyPriority).Some? {
      FirstHitEarliest(kbt, index, KeyPriority);
    } else {
      forall t
        ensures Hits(kbt, index, t) == {}
      {
        InKeyPriority(t);
      }
    }
  }

  /** When the hits of the winning type agree on one persona, the match is determined. */
  lemma PriorityMatchUnique(kbt: map<KeyType, set<seq<char>>>, index: map<seq<char>, int>, r1: Option<int>, r2: Option<int>)
    requires PriorityMatch(kbt, index, r1) && PriorityMatch(kbt, index, r2)
    requires FirstHit(kbt, index, KeyPriority).Some?
    requires var t := FirstHit(kbt, index, KeyPriority).value;
             forall k, k' :: k in Hits(kbt, index, t) && k' in Hits(kbt, index, t) ==> index[k] == index[k']
    ensures r1 == r2
  {
  }

  /** No key of the group, of any type, is in the index: `_match_by_priority` returns nothing. */
  predicate Unindexed(kbt: map<KeyType, set<seq<char>>>, index: map<seq<char>, int>) {
    forall t :: Hits(kbt, index, t) == {}
  }

  // ---------------------------------------------------------------- `_match_excel_to_api`

  /** Every group is matched as `_match_by_priority` may match it. */
  ghost predicate Matches(gs: seq<Group>, index: map<seq<char>, int>, ms: seq<Option<int>>) {
    |ms| == |gs| && MatchedUpTo(gs, index, ms)
  }

  /** The first `|ms|` groups are matched as `_match_by_priority` may match them. */
  ghost predicate MatchedUpTo(gs: seq<Group>, index: map<seq<char>, int>, ms: seq<Option<int>>) {
    |ms| <= |gs| && forall g :: 0 <= g < |ms| ==> PriorityMatch(gs[g].keysByType, index, ms[g])
  }

  /** One more matched group. */
  lemma MatchedUpToSnoc(gs: seq<Group>, index: map<seq<char>, int>, ms: seq<Option<int>>, r: Option<int>)
    requires MatchedUpTo(gs, index, ms) && |ms| < |gs| && PriorityMatch(gs[|ms|].keysByType, index, r)
    ensures MatchedUpTo(gs, index, ms + [r])
  {
    var ms' := ms + [r];
    forall g | 0 <= g < |ms'|
      ensures PriorityMatch(gs[g].keysByType, index, ms'[g])
    {
      if g < |ms| { assert ms'[g] == ms[g]; }
    }
  }

  /** `desired_by_persona`: for each matched persona, the union of the desired levels of its groups. */
  function DesiredByPersona(gs: seq<Group>, ms: seq<Option<int>>): map<int, set<int>>
    requires |ms| <= |gs|
  {
    if ms == [] then map[]
    else
      var d := DesiredByPersona(gs, ms[..|ms| - 1]);
      match ms[|ms| - 1]
      case None => d
      case Some(p) => d[p := (if p in d then d[p] else {}) + DesiredLevels(gs[|ms| - 1].record)]
  }

  /** The indices of the groups with no match, in order (`missing_excel`). */
  function Unmatched(ms: seq<Option<int>>): seq<nat>
  {
    if ms == [] then []
    else Unmatched(ms[..|ms| - 1]) + if ms[|ms| - 1].None? then [|ms| - 1] else []
  }

  /** The personas matched so far. */
  function Matched(ms: seq<Option<int>>): set<int>
  {
    if ms == [] then {}
    else Matched(ms[..|ms| - 1]) + if ms[|ms| - 1].Some? then {ms[|ms| - 1].value} else {}
  }

  /** The personas named by a "multiple groups" warning, one per group matched to a persona already matched. */
  function Repeated(ms: seq<Option<int>>): seq<int>
  {
    if ms == [] then []
    else
      var init := ms[..|ms| - 1];
      Repeated(init) + if ms[|ms| - 1].Some? && ms[|ms| - 1].value in Matched(init) then [ms[|ms| - 1].value] else []
  }

  /** The personas given desired levels are exactly the matched ones. */
  lemma {:induction false} DesiredKeys(gs: seq<Group>, ms: seq<Option<int>>)
    requires |ms| <= |gs|
    ensures DesiredByPersona(gs, ms).Keys == Matched(ms)
  {
    if ms != [] {
      DesiredKeys(gs, ms[..|ms| - 1]);
    }
  }

  /** The matching state after one more group. */
  lemma MatchSnoc(gs: seq<Group>, ms: seq<Option<int>>, r: Option<int>)
    requires |ms| < |gs|
    ensures var g, ms' := |ms|, ms + [r];
            var d := DesiredByPersona(gs, ms);
            && DesiredByPersona(gs, ms') ==
                 (if r.None? then d else d[r.value := (if r.value in d then d[r.value] else {}) + DesiredLevels(gs[g].record)])
            && Unmatched(ms') == Unmatched(ms) + (if r.None? then [g] else [])
            && Matched(ms') == Matched(ms) + (if r.Some? then {r.value} else {})
            && Repeated(ms') == Repeated(ms) + (if r.Some? && r.value in Matched(ms) then [r.value] else [])
  {
    var ms' := ms + [r];
    assert ms'[..|ms|] == ms;
  }

  /**
   * A persona has desired levels exactly when some group matched it, and a
   * level is desired exactly when one of its groups asks for it.
   */
  lemma {:induction false} DesiredByPersonaMeaning(gs: seq<Group>, ms: seq<Option<int>>, p: int, l: int)
    requires |ms| <= |gs|
    ensures p in DesiredByPersona(gs, ms) <==> exists g :: 0 <= g < |ms| && ms[g] == Some(p)
    ensures p in DesiredByPersona(gs, ms) ==>
              (l in DesiredByPersona(gs, ms)[p] <==>
               exists g :: 0 <= g < |ms| && ms[g] == Some(p) && l in DesiredLevels(gs[g].record))
  {
    DesiredKeys(gs, ms);
    MatchedMeaning(ms, p);
    if p in DesiredByPersona(gs, ms) {
      DesiredLevelsOf(gs, ms, p, l);
    }
  }

  /** A persona is matched exactly when some group's match names it. */
  lemma {:induction false} MatchedMeaning(ms: seq<Option<int>>, p: int)
    ensures p in Matched(ms) <==> exists g :: 0 <= g < |ms| && ms[g] == Some(p)
  {
    if ms != [] {
      var n := |ms| - 1;
      MatchedMeaning(ms[..n], p);
      assert forall g :: 0 <= g < n ==> ms[g] == ms[..n][g];
    }
  }

  /** A matched persona desires a level exactly when one of its groups asks for it. */
  lemma {:induction false} DesiredLevelsOf(gs: seq<Group>, ms: seq<Option<int>>, p: int, l: int)
    requires |ms| <= |gs| && p in DesiredByPersona(gs, ms)
    ensures l in DesiredByPersona(gs, ms)[p] <==>
            exists g :: 0 <= g < |ms| && ms[g] == Some(p) && l in DesiredLevels(gs[g].record)
  {
    var n := |ms| - 1;
    var mi := ms[..n];
    assert forall g :: 0 <= g < n ==> ms[g] == mi[g];
    var d := DesiredByPersona(gs, mi);
    var levels := DesiredLevels(gs[n].record);
    if ms[n] != Some(p) {
      assert DesiredByPersona(gs, ms)[p] == d[p];
      DesiredLevelsOf(gs, mi, p, l);
    } else if p in d {
      assert DesiredByPersona(gs, ms)[p] == d[p] + levels;
      DesiredLevelsOf(gs, mi, p, l);
    } else {
      assert DesiredByPersona(gs, ms)[p] == levels;
      DesiredKeys(gs, mi);
      MatchedMeaning(mi, p);
    }
  }

  /** The unmatched list holds exactly the groups with no match. */
  lemma {:induction false} UnmatchedMeaning(ms: seq<Option<int>>, g: int)
    ensures g in Unmatched(ms) <==> 0 <= g < |ms| && ms[g] == None
  {
    if ms != [] {
      var init := ms[..|ms| - 1];
      UnmatchedMeaning(init, g);
      if 0 <= g < |init| { assert ms[g] == init[g]; }
    }
  }

  /**
   * Each group is unmatched, first for its persona, or a repeat: the warnings
   * number the matched groups beyond one per persona.
   */
  lemma {:induction false} MatchCounts(ms: seq<Option<int>>)
    ensures |Unmatched(ms)| + |Matched(ms)| + |Repeated(ms)| == |ms|
  {
    if ms != [] {
      var init := ms[..|ms| - 1];
      MatchCounts(init);
      match ms[|ms| - 1]
      case None =>
        assert Matched(ms) == Matched(init) && Repeated(ms) == Repeated(init);
      case Some(p) =>
        assert Unmatched(ms) == Unmatched(init) && Matched(ms) == Matched(init) + {p};
        if p in Matched(init) {
          assert Matched(ms) == Matched(init);
        } else {
          assert Repeated(ms) == Repeated(init);
        }
    }
  }

  /** The personas with desired levels are the matched ones. */
  lemma {:induction false} DesiredDomain(gs: seq<Group>, ms: seq<Option<int>>)
    requires |ms| <= |gs|
    ensures DesiredByPersona(gs, ms).Keys == Matched(ms)
  {
    if ms != [] {
      DesiredDomain(gs, ms[..|ms| - 1]);
    }
  }

  // ---------------------------------------------------------------- levels of one persona

  /**
   * `_resolve_niveles_actuales`: the detail levels, else the active detail
   * levels, else the listed levels, the first of them that is not empty.
   */
  function ResolveNivelesActuales(e: P.ApiProfesor): (r: set<int>)
    ensures r == {} <==> e.nivelesDetalle == {} && e.nivelesDetalleActivos == {} && e.nivelesPresentes == {}
    ensures r == e.nivelesDetalle
            || (e.nivelesDetalle == {} && (r == e.nivelesDetalleActivos
                                           || (e.nivelesDetalleActivos == {} && r == e.nivelesPresentes)))
  {
    if e.nivelesDetalle != {} then e.nivelesDetalle
    else if e.nivelesDetalleActivos != {} then e.nivelesDetalleActivos
    else e.nivelesPresentes
  }

  /** `activos.get(n) is True`: the level is reported active; an unknown level is not. */
  predicate IsActive(activos: map<int, bool>, n: int) {
    n in activos && activos[n]
  }

  /** The levels whose flag is `True`, the ones `_inactivar_todos` switches off. */
  function ActiveLevels(activos: map<int, bool>): set<int> {
    set n | n in activos && activos[n]
  }

  /** The levels `_activar_deseados` switches on, in the order of `all`. */
  function ActivationTargets(all: seq<int>, desired: set<int>, activos: map<int, bool>): seq<int>
  {
    if all == [] then []
    else
      var n := all[|all| - 1];
      ActivationTargets(all[..|all| - 1], desired, activos) + if n in desired && !IsActive(activos, n) then [n] else []
  }

  /** The levels `_inactivar_no_deseados` switches off, in the order of `all`. */
  function InactivationTargets(all: seq<int>, desired: set<int>, activos: map<int, bool>): seq<int>
  {
    if all == [] then []
    else
      var n := all[|all| - 1];
      InactivationTargets(all[..|all| - 1], desired, activos) + if n !in desired && IsActive(activos, n) then [n] else []
  }

  /**
   * A level is switched on exactly when it is desired and not reported active,
   * and switched off exactly when it is reported active and not desired.
   */
  lemma {:induction false} TargetsMeaning(all: seq<int>, desired: set<int>, activos: map<int, bool>, n: int)
    ensures n in ActivationTargets(all, desired, activos) <==> n in all && n in desired && !IsActive(activos, n)
    ensures n in InactivationTargets(all, desired, activos) <==> n in all && n !in desired && IsActive(activos, n)
  {
    if all != [] {
      TargetsMeaning(all[..|all| - 1], desired, activos, n);
      assert all == all[..|all| - 1] + [all[|all| - 1]];
    }
  }

  /** No level of one persona is both switched on and switched off. */
  lemma TargetsDisjoint(all: seq<int>, desired: set<int>, activos: map<int, bool>, n: int)
    ensures !(n in ActivationTargets(all, desired, activos) && n in InactivationTargets(all, desired, activos))
  {
    TargetsMeaning(all, desired, activos, n);
  }

  /** The flags after switching `on` on and then `off` off. */
  function Applied(activos: map<int, bool>, on: seq<int>, off: seq<int>): map<int, bool> {
    (activos + map n | n in on :: true) + map n | n in off :: false
  }

  /**
   * When every call succeeds, each level of `all` ends active exactly when it
   * is desired.
   */
  lemma TargetsReachDesired(all: seq<int>, desired: set<int>, activos: map<int, bool>, n: int)
    requires n in all
    ensures IsActive(Applied(activos, ActivationTargets(all, desired, activos), InactivationTargets(all, desired, activos)), n)
            <==> n in desired
  {
    TargetsMeaning(all, desired, activos, n);
  }

  // ---------------------------------------------------------------- remote calls

  /** An error the sync appends: one of the listing, or a failed call. */
  datatype SyncError =
    | Listing(e: P.ListError)
    | ActivarInactivar(personaId: int, nivelId: int, activo: bool)
    | AsignarNivel(personaId: int)

  /** The call counter, the success count and the error list threaded through `_put_activar` calls. */
  datatype Puts = Puts(calls: nat, count: nat, errors: seq<SyncError>)

  /**
   * One `_put_activar`: a dry run succeeds without a call; otherwise the
   * `calls`-th call answers, and a failure appends an error.
   */
  function PutOne(s: Puts, ok: (nat, int, int, bool) -> bool, dryRun: bool, p: int, n: int, activo: bool): Puts {
    if dryRun then Puts(s.calls, s.count + 1, s.errors)
    else if ok(s.calls, p, n, activo) then Puts(s.calls + 1, s.count + 1, s.errors)
    else Puts(s.calls + 1, s.count, s.errors + [ActivarInactivar(p, n, activo)])
  }

  /** `_put_activar` on each level of `ns` in turn. */
  function PutAll(s: Puts, ok: (nat, int, int, bool) -> bool, dryRun: bool, p: int, ns: seq<int>, activo: bool): Puts
  {
    if ns == [] then s
    else PutOne(PutAll(s, ok, dryRun, p, ns[..|ns| - 1], activo), ok, dryRun, p, ns[|ns| - 1], activo)
  }

  /** The number of failed activation (`activo`) or deactivation calls among `es`. */
  function Failed(es: seq<SyncError>, activo: bool): (n: nat)
    ensures n <= |es|
  {
    if es == [] then 0
    else Failed(es[..|es| - 1], activo) + if es[|es| - 1].ActivarInactivar? && es[|es| - 1].activo == activo then 1 else 0
  }

  /** The number of failed level assignments among `es`. */
  function FailedAssign(es: seq<SyncError>): (n: nat)
    ensures n <= |es|
  {
    if es == [] then 0 else FailedAssign(es[..|es| - 1]) + if es[|es| - 1].AsignarNivel? then 1 else 0
  }

  /** The counters are additive over appended errors. */
  lemma {:induction false} FailedConcat(a: seq<SyncError>, b: seq<SyncError>)
    ensures Failed(a + b, true) == Failed(a, true) + Failed(b, true)
    ensures Failed(a + b, false) == Failed(a, false) + Failed(b, false)
    ensures FailedAssign(a + b) == FailedAssign(a) + FailedAssign(b)
  {
    if b == [] {
      assert a + b == a;
    } else {
      assert (a + b)[..|a + b| - 1] == a + b[..|b| - 1];
      FailedConcat(a, b[..|b| - 1]);
    }
  }

  /** Every level is either counted or logged as a failure of its kind. */
  lemma {:induction false} PutAllAccount(s: Puts, ok: (nat, int, int, bool) -> bool, dryRun: bool, p: int, ns: seq<int>, activo: bool)
    ensures var r := PutAll(s, ok, dryRun, p, ns, activo);
            && r.count + Failed(r.errors, activo) == s.count + Failed(s.errors, activo) + |ns|
            && Failed(r.errors, !activo) == Failed(s.errors, !activo)
            && FailedAssign(r.errors) == FailedAssign(s.errors)
  {
    if ns != [] {
      var ns' := ns[..|ns| - 1];
      PutAllAccount(s, ok, dryRun, p, ns', activo);
      var m := PutAll(s, ok, dryRun, p, ns', activo);
      var n := ns[|ns| - 1];
      assert PutAll(s, ok, dryRun, p, ns, activo) == PutOne(m, ok, dryRun, p, n, activo);
      if !dryRun && !ok(m.calls, p, n, activo) {
        var x := ActivarInactivar(p, n, activo);
        FailedConcat(m.errors, [x]);
        assert [x][..0] == [];
        assert Failed([x], activo) == 1 && Failed([x], !activo) == 0 && FailedAssign([x]) == 0;
      }
    }
  }

  /** A dry run counts every level, makes no call and logs nothing; otherwise each level takes one call. */
  lemma {:induction false} PutAllCalls(s: Puts, ok: (nat, int, int, bool) -> bool, dryRun: bool, p: int, ns: seq<int>, activo: bool)
    ensures var r := PutAll(s, ok, dryRun, p, ns, activo);
            && (dryRun ==> r == Puts(s.calls, s.count + |ns|, s.errors))
            && (!dryRun ==> r.calls == s.calls + |ns|)
  {
    if ns != [] {
      PutAllCalls(s, ok, dryRun, p, ns[..|ns| - 1], activo);
    }
  }

  /** Every error the calls log is a failed call on one of the levels, for this persona. */
  lemma {:induction false} PutAllErrors(s: Puts, ok: (nat, int, int, bool) -> bool, dryRun: bool, p: int, ns: seq<int>, activo: bool)
    ensures var r := PutAll(s, ok, dryRun, p, ns, activo);
            && |s.errors| <= |r.errors| && r.errors[..|s.errors|] == s.errors
            && forall e :: e in r.errors[|s.errors|..] ==> e.ActivarInactivar? && e.personaId == p && e.nivelId in ns && e.activo == activo
  {
    if ns != [] {
      var ns' := ns[..|ns| - 1];
      PutAllErrors(s, ok, dryRun, p, ns', activo);
      var m := PutAll(s, ok, dryRun, p, ns', activo);
      var r := PutAll(s, ok, dryRun, p, ns, activo);
      assert forall x :: x in ns' ==> x in ns;
      if r.errors != m.errors {
        assert r.errors[|s.errors|..] == m.errors[|s.errors|..] + [r.errors[|r.errors| - 1]];
      }
    }
  }

  // ---------------------------------------------------------------- the sync loop

  /** What the loop of `sync_profesores` does for one listed persona. */
  datatype Plan =
    | InactivateAll(levels: set<int>)
    | Skip
    | Apply(desired: set<int>, current: set<int>)

  /**
   * A persona no group matched has all its active levels switched off; a
   * matched one asking for no level keeps its current levels, or is skipped
   * when it has none; otherwise its levels are assigned and switched.
   */
  function PlanOf(e: P.ApiProfesor, d: map<int, set<int>>): Plan {
    if e.personaId !in d then InactivateAll(ActiveLevels(e.nivelesActivos))
    else
      var current := ResolveNivelesActuales(e);
      var desired := if d[e.personaId] != {} then d[e.personaId] else current;
      if desired == {} then Skip else Apply(desired, current)
  }

  /** The plan follows the spreadsheet whenever it asks for some level. */
  lemma PlanFollowsSheet(e: P.ApiProfesor, d: map<int, set<int>>)
    ensures PlanOf(e, d).Skip? <==> e.personaId in d && d[e.personaId] == {} && ResolveNivelesActuales(e) == {}
    ensures e.personaId in d && d[e.personaId] != {} ==> PlanOf(e, d) == Apply(d[e.personaId], ResolveNivelesActuales(e))
    ensures PlanOf(e, d).Apply? ==> PlanOf(e, d).desired != {}
  {
  }

  /** The personas skipped with a "sin niveles" warning, in list order. */
  function Skipped(es: seq<P.ApiProfesor>, d: map<int, set<int>>): seq<int>
  {
    if es == [] then []
    else Skipped(es[..|es| - 1], d) + if PlanOf(es[|es| - 1], d).Skip? then [es[|es| - 1].personaId] else []
  }

  /** The number of levels the plan of one persona switches on. */
  function OnOf(all: seq<int>, e: P.ApiProfesor, d: map<int, set<int>>): nat {
    match PlanOf(e, d)
    case Apply(desired, _) => |ActivationTargets(all, desired, e.nivelesActivos)|
    case _ => 0
  }

  /** The number of levels the plan of one persona switches off. */
  function OffOf(all: seq<int>, e: P.ApiProfesor, d: map<int, set<int>>): nat {
    match PlanOf(e, d)
    case InactivateAll(levels) => |levels|
    case Apply(desired, _) => |InactivationTargets(all, desired, e.nivelesActivos)|
    case Skip => 0
  }

  /** Whether the plan of one persona reassigns its level set. */
  function AssignOf(e: P.ApiProfesor, d: map<int, set<int>>): nat {
    var pl := PlanOf(e, d);
    if pl.Apply? && pl.desired != pl.current then 1 else 0
  }

  /** The number of levels the plans switch on. */
  function PlannedOn(all: seq<int>, es: seq<P.ApiProfesor>, d: map<int, set<int>>): nat
  {
    if es == [] then 0 else PlannedOn(all, es[..|es| - 1], d) + OnOf(all, es[|es| - 1], d)
  }

  /** The number of levels the plans switch off. */
  function PlannedOff(all: seq<int>, es: seq<P.ApiProfesor>, d: map<int, set<int>>): nat
  {
    if es == [] then 0 else PlannedOff(all, es[..|es| - 1], d) + OffOf(all, es[|es| - 1], d)
  }

  /** The number of personas whose level set the plans reassign. */
  function PlannedAssign(es: seq<P.ApiProfesor>, d: map<int, set<int>>): nat
  {
    if es == [] then 0 else PlannedAssign(es[..|es| - 1], d) + AssignOf(es[|es| - 1], d)
  }

  /**
   * A persona no group matched has every level reported active switched off
   * and nothing else; a matched persona never has a level both switched on
   * and off, and with every call successful ends with exactly its desired
   * levels of `all` active.
   */
  lemma PlanEffect(all: seq<int>, e: P.ApiProfesor, d: map<int, set<int>>, n: int)
    ensures e.personaId !in d ==> OffOf(all, e, d) == |ActiveLevels(e.nivelesActivos)| && OnOf(all, e, d) == 0 &&
                                  AssignOf(e, d) == 0
    ensures PlanOf(e, d).Apply? ==>
              var desired := PlanOf(e, d).desired;
              var on, off := ActivationTargets(all, desired, e.nivelesActivos), InactivationTargets(all, desired, e.nivelesActivos);
              !(n in on && n in off) && (n in all ==> (IsActive(Applied(e.nivelesActivos, on, off), n) <==> n in desired))
  {
    if PlanOf(e, d).Apply? {
      var desired := PlanOf(e, d).desired;
      TargetsDisjoint(all, desired, e.nivelesActivos, n);
      if n in all {
        TargetsReachDesired(all, desired, e.nivelesActivos, n);
      }
    }
  }

  /** The errors of the listing, carried over first. */
  function ListingErrors(l: seq<P.ListError>): (r: seq<SyncError>)
    ensures |r| == |l| && Failed(r, true) == 0 && Failed(r, false) == 0 && FailedAssign(r) == 0
  {
    if l == [] then []
    else
      var init := ListingErrors(l[..|l| - 1]);
      var r := init + [Listing(l[|l| - 1])];
      assert r[..|r| - 1] == init;
      r
  }

  /** A list without repeats has as many elements as the set of its elements. */
  lemma {:induction false} DistinctSize(xs: seq<int>, s: set<int>)
    requires forall i, j :: 0 <= i < j < |xs| ==> xs[i] != xs[j]
    requires forall n :: n in xs <==> n in s
    ensures |xs| == |s|
  {
    if xs != [] {
      var init, last := xs[..|xs| - 1], xs[|xs| - 1];
      assert last !in init;
      forall n
        ensures n in init <==> n in s - {last}
      {
        if n in init {
          var i :| 0 <= i < |init| && init[i] == n;
          assert xs[i] == n;
        }
        if n in s - {last} {
          assert n in xs;
          var i :| 0 <= i < |xs| && xs[i] == n;
          assert i < |init| && init[i] == n;
        }
      }
      DistinctSize(init, s - {last});
    } else {
      assert forall n :: n !in s;
      assert s == {};
    }
  }

  // ---------------------------------------------------------------- the loop as a fold

  /** The fixed inputs of the loop: the dry-run flag, the levels visited and the answers of the two kinds of call. */
  datatype SyncConfig = SyncConfig(dryRun: bool, all: seq<int>, activarOk: (nat, int, int, bool) -> bool,
                                   asignarOk: (nat, int, set<int>) -> bool)

  /** What the loop changes: the two call counters, the errors, the three totals and the skipped personas. */
  datatype SyncState = SyncState(calls: nat, asignarCalls: nat, errors: seq<SyncError>,
                                 activar: nat, inactivar: nat, asignarNivel: nat, skipped: seq<int>)

  /**
   * `_assign_levels`: nothing when the level set is unchanged; a dry run
   * counts one; otherwise the `asignarCalls`-th call answers, and a failure
   * is logged instead of counted.
   */
  function AssignStep(s: SyncState, c: SyncConfig, p: int, desired: set<int>, current: set<int>): SyncState {
    if desired == current then s
    else if c.dryRun then s.(asignarNivel := s.asignarNivel + 1)
    else if c.asignarOk(s.asignarCalls, p, desired) then
      s.(asignarCalls := s.asignarCalls + 1, asignarNivel := s.asignarNivel + 1)
    else s.(asignarCalls := s.asignarCalls + 1, errors := s.errors + [AsignarNivel(p)])
  }

  /** `_put_activar` on each level of `ns`, the successes added to `activar` or `inactivar`. */
  function PutStep(s: SyncState, c: SyncConfig, p: int, ns: seq<int>, activo: bool): SyncState {
    var r := PutAll(Puts(s.calls, 0, s.errors), c.activarOk, c.dryRun, p, ns, activo);
    if activo then s.(calls := r.calls, errors := r.errors, activar := s.activar + r.count)
    else s.(calls := r.calls, errors := r.errors, inactivar := s.inactivar + r.count)
  }

  /** An applied plan: assign the level set, then switch the targets on, then off. */
  function ApplyPlan(s: SyncState, c: SyncConfig, e: P.ApiProfesor, desired: set<int>, current: set<int>): SyncState {
    var s1 := AssignStep(s, c, e.personaId, desired, current);
    var s2 := PutStep(s1, c, e.personaId, ActivationTargets(c.all, desired, e.nivelesActivos), true);
    PutStep(s2, c, e.personaId, InactivationTargets(c.all, desired, e.nivelesActivos), false)
  }

  /**
   * One round of the loop for one persona; `order` is the order in which
   * its active levels are switched off when no group matched it.
   */
  function PersonaStep(s: SyncState, c: SyncConfig, e: P.ApiProfesor, d: map<int, set<int>>, order: seq<int>): SyncState {
    match PlanOf(e, d)
    case InactivateAll(_) => PutStep(s, c, e.personaId, order, false)
    case Skip => s.(skipped := s.skipped + [e.personaId])
    case Apply(desired, current) => ApplyPlan(s, c, e, desired, current)
  }

  /** The loop of `sync_profesores` over the listed personas, in order. */
  function SyncRun(s: SyncState, c: SyncConfig, es: seq<P.ApiProfesor>, d: map<int, set<int>>,
                   orders: seq<seq<int>>): SyncState
    requires |orders| == |es|
  {
    if es == [] then s
    else PersonaStep(SyncRun(s, c, es[..|es| - 1], d, orders[..|es| - 1]), c, es[|es| - 1], d, orders[|es| - 1])
  }

  /** `order` lists the levels flagged `True`, each once. */
  ghost predicate Enumerates(order: seq<int>, activos: map<int, bool>) {
    && (forall i, j :: 0 <= i < j < |order| ==> order[i] != order[j])
    && (forall n :: n in order <==> n in ActiveLevels(activos))
  }

  /** An order per persona, enumerating the active levels of each persona no group matched. */
  ghost predicate OrdersFor(es: seq<P.ApiProfesor>, d: map<int, set<int>>, orders: seq<seq<int>>) {
    |orders| == |es| &&
    forall i :: 0 <= i < |es| && PlanOf(es[i], d).InactivateAll? ==> Enumerates(orders[i], es[i].nivelesActivos)
  }

  lemma OrdersForSnoc(es: seq<P.ApiProfesor>, d: map<int, set<int>>, orders: seq<seq<int>>, e: P.ApiProfesor, o: seq<int>)
    requires OrdersFor(es, d, orders)
    requires PlanOf(e, d).InactivateAll? ==> Enumerates(o, e.nivelesActivos)
    ensures OrdersFor(es + [e], d, orders + [o])
  {
    assert forall i :: 0 <= i < |es| ==> (es + [e])[i] == es[i] && (orders + [o])[i] == orders[i];
  }

  /** Every call of either kind succeeds. */
  ghost predicate AlwaysOk(c: SyncConfig) {
    (forall n, p, l, a :: c.activarOk(n, p, l, a)) && (forall n, p, ls :: c.asignarOk(n, p, ls))
  }

  /** A batch of switches: each level counted or logged as failed; one call per level unless dry. */
  lemma PutStepAccount(s: SyncState, c: SyncConfig, p: int, ns: seq<int>, activo: bool)
    ensures var r := PutStep(s, c, p, ns, activo);
            && (activo ==> r.activar + Failed(r.errors, true) == s.activar + Failed(s.errors, true) + |ns|
                           && r.inactivar == s.inactivar && Failed(r.errors, false) == Failed(s.errors, false))
            && (!activo ==> r.inactivar + Failed(r.errors, false) == s.inactivar + Failed(s.errors, false) + |ns|
                            && r.activar == s.activar && Failed(r.errors, true) == Failed(s.errors, true))
            && r.asignarNivel == s.asignarNivel && FailedAssign(r.errors) == FailedAssign(s.errors)
            && r.asignarCalls == s.asignarCalls && r.skipped == s.skipped
            && (c.dryRun ==> r.errors == s.errors && r.calls == s.calls)
            && (!c.dryRun ==> r.calls == s.calls + |ns|)
  {
    PutAllAccount(Puts(s.calls, 0, s.errors), c.activarOk, c.dryRun, p, ns, activo);
    PutAllCalls(Puts(s.calls, 0, s.errors), c.activarOk, c.dryRun, p, ns, activo);
  }

  /** A level assignment is counted or logged as failed, and takes one call unless dry or unchanged. */
  lemma AssignStepAccount(s: SyncState, c: SyncConfig, p: int, desired: set<int>, current: set<int>)
    ensures var r := AssignStep(s, c, p, desired, current);
            var planned := if desired != current then 1 else 0;
            && r.asignarNivel + FailedAssign(r.errors) == s.asignarNivel + FailedAssign(s.errors) + planned
            && Failed(r.errors, true) == Failed(s.errors, true) && Failed(r.errors, false) == Failed(s.errors, false)
            && r.activar == s.activar && r.inactivar == s.inactivar && r.calls == s.calls && r.skipped == s.skipped
            && (c.dryRun ==> r.errors == s.errors && r.asignarCalls == s.asignarCalls)
            && (!c.dryRun ==> r.asignarCalls == s.asignarCalls + planned)
  {
    if desired != current && !c.dryRun && !c.asignarOk(s.asignarCalls, p, desired) {
      FailedConcat(s.errors, [AsignarNivel(p)]);
      assert [AsignarNivel(p)][..0] == [];
    }
  }

  /**
   * One persona's round carries out its plan: every planned change is
   * counted or logged as failed, and outside a dry run every planned change
   * is one call and no other call is made.
   */
  lemma PersonaStepAccount(s: SyncState, c: SyncConfig, e: P.ApiProfesor, d: map<int, set<int>>, order: seq<int>)
    requires PlanOf(e, d).InactivateAll? ==> Enumerates(order, e.nivelesActivos)
    ensures var r := PersonaStep(s, c, e, d, order);
            && r.activar + Failed(r.errors, true) == s.activar + Failed(s.errors, true) + OnOf(c.all, e, d)
            && r.inactivar + Failed(r.errors, false) == s.inactivar + Failed(s.errors, false) + OffOf(c.all, e, d)
            && r.asignarNivel + FailedAssign(r.errors) == s.asignarNivel + FailedAssign(s.errors) + AssignOf(e, d)
            && r.skipped == s.skipped + (if PlanOf(e, d).Skip? then [e.personaId] else [])
            && (c.dryRun ==> r.errors == s.errors && r.calls == s.calls && r.asignarCalls == s.asignarCalls)
            && (!c.dryRun ==> r.calls == s.calls + OnOf(c.all, e, d) + OffOf(c.all, e, d)
                              && r.asignarCalls == s.asignarCalls + AssignOf(e, d))
  {
    match PlanOf(e, d)
    case InactivateAll(levels) =>
      DistinctSize(order, levels);
      PutStepAccount(s, c, e.personaId, order, false);
    case Skip =>
    case Apply(desired, current) =>
      ApplyPlanAccount(s, c, e, desired, current);
  }

  /** An applied plan: each of its changes is counted or logged as failed, and outside a dry run is one call. */
  lemma ApplyPlanAccount(s: SyncState, c: SyncConfig, e: P.ApiProfesor, desired: set<int>, current: set<int>)
    ensures var r := ApplyPlan(s, c, e, desired, current);
            var on := |ActivationTargets(c.all, desired, e.nivelesActivos)|;
            var off := |InactivationTargets(c.all, desired, e.nivelesActivos)|;
            var assign := if desired != current then 1 else 0;
            && r.activar + Failed(r.errors, true) == s.activar + Failed(s.errors, true) + on
            && r.inactivar + Failed(r.errors, false) == s.inactivar + Failed(s.errors, false) + off
            && r.asignarNivel + FailedAssign(r.errors) == s.asignarNivel + FailedAssign(s.errors) + assign
            && r.skipped == s.skipped
            && (c.dryRun ==> r.errors == s.errors && r.calls == s.calls && r.asignarCalls == s.asignarCalls)
            && (!c.dryRun ==> r.calls == s.calls + on + off && r.asignarCalls == s.asignarCalls + assign)
  {
    var s1 := AssignStep(s, c, e.personaId, desired, current);
    var on := ActivationTargets(c.all, desired, e.nivelesActivos);
    var s2 := PutStep(s1, c, e.personaId, on, true);
    AssignStepAccount(s, c, e.personaId, desired, current);
    PutStepAccount(s1, c, e.personaId, on, true);
    PutStepAccount(s2, c, e.personaId, InactivationTargets(c.all, desired, e.nivelesActivos), false);
  }

  /** The prefix of a list of orders is a list of orders for the prefix. */
  lemma OrdersForPrefix(es: seq<P.ApiProfesor>, d: map<int, set<int>>, orders: seq<seq<int>>, n: nat)
    requires OrdersFor(es, d, orders) && n <= |es|
    ensures OrdersFor(es[..n], d, orders[..n])
  {
    assert forall i :: 0 <= i < n ==> es[..n][i] == es[i] && orders[..n][i] == orders[i];
  }

  /**
   * The whole loop carries out the plans: each planned change is counted in
   * its total or logged as a failed call, a dry run logs and calls nothing,
   * and otherwise the calls made are exactly the planned changes.
   */
  lemma {:induction false} SyncRunAccount(s: SyncState, c: SyncConfig, es: seq<P.ApiProfesor>, d: map<int, set<int>>,
                                          orders: seq<seq<int>>)
    requires OrdersFor(es, d, orders)
    ensures var r := SyncRun(s, c, es, d, orders);
            && r.activar + Failed(r.errors, true) == s.activar + Failed(s.errors, true) + PlannedOn(c.all, es, d)
            && r.inactivar + Failed(r.errors, false) == s.inactivar + Failed(s.errors, false) + PlannedOff(c.all, es, d)
            && r.asignarNivel + FailedAssign(r.errors) == s.asignarNivel + FailedAssign(s.errors) + PlannedAssign(es, d)
            && r.skipped == s.skipped + Skipped(es, d)
            && (c.dryRun ==> r.errors == s.errors && r.calls == s.calls && r.asignarCalls == s.asignarCalls)
            && (!c.dryRun ==> r.calls == s.calls + PlannedOn(c.all, es, d) + PlannedOff(c.all, es, d)
                              && r.asignarCalls == s.asignarCalls + PlannedAssign(es, d))
  {
    if es != [] {
      var n := |es| - 1;
      OrdersForPrefix(es, d, orders, n);
      SyncRunAccount(s, c, es[..n], d, orders[..n]);
      PersonaStepAccount(SyncRun(s, c, es[..n], d, orders[..n]), c, es[n], d, orders[n]);
    }
  }

  /** With every call successful, a batch of switches logs nothing. */
  lemma {:induction false} PutAllAlwaysOk(s: Puts, ok: (nat, int, int, bool) -> bool, dryRun: bool, p: int,
                                          ns: seq<int>, activo: bool)
    requires forall n, q, l, a :: ok(n, q, l, a)
    ensures PutAll(s, ok, dryRun, p, ns, activo).errors == s.errors
  {
    if ns != [] {
      PutAllAlwaysOk(s, ok, dryRun, p, ns[..|ns| - 1], activo);
    }
  }

  /** With every call successful, the loop logs nothing. */
  lemma {:induction false} SyncRunAlwaysOk(s: SyncState, c: SyncConfig, es: seq<P.ApiProfesor>, d: map<int, set<int>>,
                                           orders: seq<seq<int>>)
    requires |orders| == |es| && AlwaysOk(c)
    ensures SyncRun(s, c, es, d, orders).errors == s.errors
  {
    if es != [] {
      var n := |es| - 1;
      SyncRunAlwaysOk(s, c, es[..n], d, orders[..n]);
      var m := SyncRun(s, c, es[..n], d, orders[..n]);
      var e := es[n];
      match PlanOf(e, d)
      case InactivateAll(_) =>
        PutAllAlwaysOk(Puts(m.calls, 0, m.errors), c.activarOk, c.dryRun, e.personaId, orders[n], false);
      case Skip =>
      case Apply(desired, current) =>
        var s1 := AssignStep(m, c, e.personaId, desired, current);
        var on := ActivationTargets(c.all, desired, e.nivelesActivos);
        var s2 := PutStep(s1, c, e.personaId, on, true);
        PutAllAlwaysOk(Puts(s1.calls, 0, s1.errors), c.activarOk, c.dryRun, e.personaId, on, true);
        PutAllAlwaysOk(Puts(s2.calls, 0, s2.errors), c.activarOk, c.dryRun, e.personaId,
                       InactivationTargets(c.all, desired, e.nivelesActivos), false);
    }
  }

  /** When every call succeeds, nothing is logged and each total is exactly the plans' number of changes. */
  lemma SyncRunAllSucceed(s: SyncState, c: SyncConfig, es: seq<P.ApiProfesor>, d: map<int, set<int>>,
                          orders: seq<seq<int>>)
    requires OrdersFor(es, d, orders) && AlwaysOk(c)
    ensures var r := SyncRun(s, c, es, d, orders);
            && r.errors == s.errors
            && r.activar == s.activar + PlannedOn(c.all, es, d)
            && r.inactivar == s.inactivar + PlannedOff(c.all, es, d)
            && r.asignarNivel == s.asignarNivel + PlannedAssign(es, d)
  {
    SyncRunAccount(s, c, es, d, orders);
    SyncRunAlwaysOk(s, c, es, d, orders);
  }

  /** The totals the sync reports. */
  datatype SyncSummary = SyncSummary(excelGrupos: nat, apiProfesores: nat, excelNoEnApi: nat,
                                     activar: nat, inactivar: nat, asignarNivel: nat, erroresApi: nat)
}
