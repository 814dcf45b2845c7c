/**
 * The sync of `sync_profesores` (santillana_format/profesores_sync.py): index
 * the listed personas by key, match every spreadsheet group against the
 * index, then walk the listed personas switching their levels on and off.
 *
 * The remote calls are oracles fixed at construction: the answer of the n-th
 * call of each kind, given its arguments.
 */
module ProfesoresSync {
  import opened Text
  import opened SyncRecords
  import opened SyncGroupsSpec
  import opened ProfesoresSyncSpec
  import P = Profesores

  // ---------------------------------------------------------------- matching

  /** `_build_api_index`: the key index of the listed personas and the duplicate-key warnings. */
  method BuildApiIndex(es: seq<P.ApiProfesor>) returns (index: map<seq<char>, int>, clashes: set<(seq<char>, int)>)
    ensures index == Index(Claimants(es)) && clashes == IndexClashes(Claimants(es))
  {
    index, clashes := map[], {};
    for i := 0 to |es|
      invariant index == Index(Claimants(es[..i])) && clashes == IndexClashes(Claimants(es[..i]))
    {
      ApiIndexSnoc(es, i);
      var keys := ApiKeys(es[i]);
      index, clashes := ClaimKeys(index, clashes, keys, es[i].personaId);
    }
    assert es[..|es|] == es;
  }

  /** One round of `_build_api_index`: claim each key of one persona, warning on the ones held by another. */
  method ClaimKeys(index0: map<seq<char>, int>, clashes0: set<(seq<char>, int)>, keys: set<seq<char>>, p: int)
    returns (index: map<seq<char>, int>, clashes: set<(seq<char>, int)>)
    ensures index == Claim(index0, keys, p) && clashes == clashes0 + Clashes(index0, keys, p)
  {
    index, clashes := index0, clashes0;
    var todo := keys;
    ghost var done: set<seq<char>> := {};
    while todo != {}
      invariant done + todo == keys && done !! todo
      invariant index == Claim(index0, done, p)
      invariant clashes == clashes0 + Clashes(index0, done, p)
      decreases todo
    {
      NoTextMemberEmpty(todo);
      var key :| key in todo;
      ClaimStep(index0, done, key, p);
      ClashStep(index0, done, key, p);
      if key in index && index[key] != p {
        clashes := clashes + {(key, p)};
      } else {
        index := index[key := p];
      }
      todo, done := todo - {key}, done + {key};
    }
  }

  /** `_match_by_priority`: the persona of the first key, by type in priority order, that the index holds. */
  method MatchByPriority(kbt: map<KeyType, set<seq<char>>>, index: map<seq<char>, int>) returns (r: Option<int>)
    ensures PriorityMatch(kbt, index, r)
  {
    for i := 0 to |KeyPriority|
      invariant forall j :: 0 <= j < i ==> Hits(kbt, index, KeyPriority[j]) == {}
    {
      var t := KeyPriority[i];
      var typed := if t in kbt then kbt[t] else {};
      var todo := typed;
      while todo != {}
        invariant todo <= typed
        invariant forall k :: k in typed - todo ==> k !in index
        decreases todo
      {
        NoTextMemberEmpty(todo);
        var key :| key in todo;
        if key in index {
          r := Some(index[key]);
          assert key in Hits(kbt, index, t);
          FirstHitAt(kbt, index, KeyPriority, i);
          return;
        }
        todo := todo - {key};
      }
      assert Hits(kbt, index, t) == {};
    }
    r := None;
    FirstHitNone(kbt, index, KeyPriority);
  }

  /**
   * `_match_excel_to_api`: the desired levels of each matched persona, the
   * groups with no match and one warning per group matched to a persona
   * already matched.
   */
  method MatchExcelToApi(gs: seq<Group>, index: map<seq<char>, int>)
    returns (desired: map<int, set<int>>, missing: seq<nat>, repeated: seq<int>, ghost ms: seq<Option<int>>)
    ensures Matches(gs, index, ms)
    ensures desired == DesiredByPersona(gs, ms) && missing == Unmatched(ms) && repeated == Repeated(ms)
    ensures forall g :: g in missing <==> 0 <= g < |gs| && Unindexed(gs[g].keysByType, index)
  {
    desired, missing, repeated, ms := map[], [], [], [];
    for g := 0 to |gs|
      invariant |ms| == g && MatchedUpTo(gs, index, ms)
      invariant desired == DesiredByPersona(gs, ms)
      invariant missing == Unmatched(ms) && repeated == Repeated(ms)
      invariant forall x :: x in missing <==> 0 <= x < g && Unindexed(gs[x].keysByType, index)
    {
      var r := MatchByPriority(gs[g].keysByType, index);
      PriorityMatchMeaning(gs[g].keysByType, index, r);
      MatchedUpToSnoc(gs, index, ms, r);
      MissingStep(gs, index, missing, g, r);
      MatchSnoc(gs, ms, r);
      desired, missing, repeated := RecordMatch(gs, g, ms, r, desired, missing, repeated);
      ms := ms + [r];
    }
  }

  /**
   * The end of one round of `_match_excel_to_api`: an unmatched group is
   * listed as missing; a matched one adds its levels to its persona's, with
   * a warning when the persona was matched before.
   */
  method RecordMatch(gs: seq<Group>, g: nat, ghost ms: seq<Option<int>>, r: Option<int>,
                     desired: map<int, set<int>>, missing: seq<nat>, repeated: seq<int>)
    returns (desired': map<int, set<int>>, missing': seq<nat>, repeated': seq<int>)
    requires |ms| == g < |gs|
    requires desired == DesiredByPersona(gs, ms) && missing == Unmatched(ms) && repeated == Repeated(ms)
    ensures desired' == DesiredByPersona(gs, ms + [r]) && missing' == Unmatched(ms + [r])
    ensures repeated' == Repeated(ms + [r])
  {
    MatchSnoc(gs, ms, r);
    DesiredKeys(gs, ms);
    desired', missing', repeated' := desired, missing, repeated;
    var levels := DesiredLevels(gs[g].record);
    if r.None? {
      missing' := missing + [g];
    } else if r.value in desired {
      repeated' := repeated + [r.value];
      desired' := desired[r.value := desired[r.value] + levels];
    } else {
      assert {} + levels == levels;
      desired' := desired[r.value := levels];
    }
  }

  lemma MissingStep(gs: seq<Group>, index: map<seq<char>, int>, missing: seq<nat>, g: nat, r: Option<int>)
    requires g < |gs| && (r == None <==> Unindexed(gs[g].keysByType, index))
    requires forall x :: x in missing <==> 0 <= x < g && Unindexed(gs[x].keysByType, index)
    ensures forall x :: x in missing + (if r.None? then [g] else []) <==>
      0 <= x < g + 1 && Unindexed(gs[x].keysByType, index)
  {
  }

  // ---------------------------------------------------------------- the sync loop

  /** The levels whose flag is `True`, once each, in the iteration order of the flags, which the model leaves open. */
  method ActiveOrder(activos: map<int, bool>) returns (order: seq<int>)
    ensures (forall i, j :: 0 <= i < j < |order| ==> order[i] != order[j]) &&
            (forall n :: n in order <==> n in ActiveLevels(activos))
    ensures |order| == |ActiveLevels(activos)|
  {
    order := [];
    var todo := activos.Keys;
    while todo != {}
      invariant todo <= activos.Keys
      invariant forall i, j :: 0 <= i < j < |order| ==> order[i] != order[j]
      invariant forall m :: m in order <==> m in ActiveLevels(activos) - todo
      decreases todo
    {
      NoMemberEmpty(todo);
      var n :| n in todo;
      if activos[n] {
        assert n !in order;
        order := order + [n];
      }
      todo := todo - {n};
    }
    DistinctSize(order, ActiveLevels(activos));
  }


  class Sync {
    const dryRun: bool
    /** The levels the loop visits: the requested ones, or every level of `NIVEL_MAP`. */
    const allLevelIds: seq<int>
    /** Whether the n-th `activarInactivar` call, for a persona, level and flag, succeeds. */
    const activarOk: (nat, int, int, bool) -> bool
    /** Whether the n-th `asignarNivel` call, for a persona and level set, succeeds. */
    const asignarOk: (nat, int, set<int>) -> bool

    var calls: nat
    var asignarCalls: nat
    var errors: seq<SyncError>
    var activar: nat
    var inactivar: nat
    var asignarNivel: nat
    /** The personas warned about as having no level. */
    var skipped: seq<int>

    /** The state before the loop: the listing errors come first; no level is given means every level. */
    constructor (dryRun: bool, nivelIds: seq<int>, activarOk: (nat, int, int, bool) -> bool,
                 asignarOk: (nat, int, set<int>) -> bool, listing: seq<P.ListError>)
      ensures this.dryRun == dryRun && this.activarOk == activarOk && this.asignarOk == asignarOk
      ensures allLevelIds == if nivelIds != [] then nivelIds else P.AllNiveles
      ensures calls == 0 && asignarCalls == 0 && errors == ListingErrors(listing)
      ensures activar == 0 && inactivar == 0 && asignarNivel == 0 && skipped == []
    {
      this.dryRun := dryRun;
      this.activarOk := activarOk;
      this.asignarOk := asignarOk;
      allLevelIds := if nivelIds != [] then nivelIds else P.AllNiveles;
      calls, asignarCalls, errors := 0, 0, ListingErrors(listing);
      activar, inactivar, asignarNivel, skipped := 0, 0, 0, [];
    }

    /** The fixed inputs of the loop. */
    function Cfg(): SyncConfig {
      SyncConfig(dryRun, allLevelIds, activarOk, asignarOk)
    }

    /** The fields the loop changes, as one value. */
    ghost function State(): SyncState
      reads this`calls, this`asignarCalls, this`errors, this`activar, this`inactivar, this`asignarNivel, this`skipped
    {
      SyncState(calls, asignarCalls, errors, activar, inactivar, asignarNivel, skipped)
    }

    /** `_put_activar`: a dry run succeeds without a call; a failed call logs an error. */
    method PutActivar(p: int, n: int, activo: bool) returns (ok: bool)
      modifies this`calls, this`errors
      ensures var s := PutOne(Puts(old(calls), 0, old(errors)), activarOk, dryRun, p, n, activo);
              calls == s.calls && errors == s.errors && (ok <==> s.count == 1)
    {
      if dryRun {
        ok := true;
      } else {
        ok := activarOk(calls, p, n, activo);
        if !ok {
          errors := errors + [ActivarInactivar(p, n, activo)];
        }
        calls := calls + 1;
      }
    }

    /** `_put_activar` on each level of `ns` in turn, counting the successes. */
    method PutEach(p: int, ns: seq<int>, activo: bool) returns (count: nat)
      modifies this`calls, this`errors
      ensures Puts(calls, count, errors) == PutAll(Puts(old(calls), 0, old(errors)), activarOk, dryRun, p, ns, activo)
      ensures count + Failed(errors, activo) == Failed(old(errors), activo) + |ns|
      ensures Failed(errors, !activo) == Failed(old(errors), !activo) && FailedAssign(errors) == FailedAssign(old(errors))
      ensures dryRun ==> errors == old(errors)
    {
      PutAllAccount(Puts(calls, 0, errors), activarOk, dryRun, p, ns, activo);
      PutAllCalls(Puts(calls, 0, errors), activarOk, dryRun, p, ns, activo);
      count := 0;
      for i := 0 to |ns|
        invariant Puts(calls, count, errors) == PutAll(Puts(old(calls), 0, old(errors)), activarOk, dryRun, p, ns[..i], activo)
      {
        assert ns[..i + 1][..i] == ns[..i];
        var ok := PutActivar(p, ns[i], activo);
        if ok {
          count := count + 1;
        }
      }
      assert ns[..|ns|] == ns;
    }

    /** `_activar_deseados`: switch on the desired levels not reported active. */
    method ActivarDeseados(e: P.ApiProfesor, desired: set<int>) returns (count: nat)
      modifies this`calls, this`errors
      ensures Puts(calls, count, errors) ==
              PutAll(Puts(old(calls), 0, old(errors)), activarOk, dryRun, e.personaId,
                     ActivationTargets(allLevelIds, desired, e.nivelesActivos), true)
      ensures count + Failed(errors, true) == Failed(old(errors), true) + |ActivationTargets(allLevelIds, desired, e.nivelesActivos)|
      ensures Failed(errors, false) == Failed(old(errors), false) && FailedAssign(errors) == FailedAssign(old(errors))
      ensures dryRun ==> errors == old(errors)
    {
      var targets := [];
      for i := 0 to |allLevelIds|
        invariant targets == ActivationTargets(allLevelIds[..i], desired, e.nivelesActivos)
      {
        assert allLevelIds[..i + 1][..i] == allLevelIds[..i];
        var n := allLevelIds[i];
        if n in desired && !(n in e.nivelesActivos && e.nivelesActivos[n]) {
          targets := targets + [n];
        }
      }
      assert allLevelIds[..|allLevelIds|] == allLevelIds;
      count := PutEach(e.personaId, targets, true);
    }

    /** `_inactivar_no_deseados`: switch off the levels reported active that are not desired. */
    method InactivarNoDeseados(e: P.ApiProfesor, desired: set<int>) returns (count: nat)
      modifies this`calls, this`errors
      ensures Puts(calls, count, errors) ==
              PutAll(Puts(old(calls), 0, old(errors)), activarOk, dryRun, e.personaId,
                     InactivationTargets(allLevelIds, desired, e.nivelesActivos), false)
      ensures count + Failed(errors, false) == Failed(old(errors), false) + |InactivationTargets(allLevelIds, desired, e.nivelesActivos)|
      ensures Failed(errors, true) == Failed(old(errors), true) && FailedAssign(errors) == FailedAssign(old(errors))
      ensures dryRun ==> errors == old(errors)
    {
      var targets := [];
      for i := 0 to |allLevelIds|
        invariant targets == InactivationTargets(allLevelIds[..i], desired, e.nivelesActivos)
      {
        assert allLevelIds[..i + 1][..i] == allLevelIds[..i];
        var n := allLevelIds[i];
        if n !in desired && n in e.nivelesActivos && e.nivelesActivos[n] {
          targets := targets + [n];
        }
      }
      assert allLevelIds[..|allLevelIds|] == allLevelIds;
      count := PutEach(e.personaId, targets, false);
    }

    /**
     * `_inactivar_todos`: switch off every level reported active, once each,
     * in the iteration order of the flags, which the model leaves open.
     */
    method InactivarTodos(e: P.ApiProfesor) returns (count: nat, order: seq<int>)
      modifies this`calls, this`errors
      ensures (forall i, j :: 0 <= i < j < |order| ==> order[i] != order[j]) &&
              (forall n :: n in order <==> n in ActiveLevels(e.nivelesActivos))
      ensures |order| == |ActiveLevels(e.nivelesActivos)|
      ensures Puts(calls, count, errors) == PutAll(Puts(old(calls), 0, old(errors)), activarOk, dryRun, e.personaId, order, false)
      ensures count + Failed(errors, false) == Failed(old(errors), false) + |ActiveLevels(e.nivelesActivos)|
      ensures Failed(errors, true) == Failed(old(errors), true) && FailedAssign(errors) == FailedAssign(old(errors))
      ensures dryRun ==> errors == old(errors)
    {
      order := ActiveOrder(e.nivelesActivos);
      count := PutEach(e.personaId, order, false);
    }

    /** `_assign_levels`: no call when nothing changes; a dry run counts one; a failed call logs an error. */
    method AssignLevels(p: int, desired: set<int>, current: set<int>) returns (count: nat)
      modifies this`asignarCalls, this`errors
      ensures desired == current || dryRun ==> asignarCalls == old(asignarCalls) && errors == old(errors)
      ensures desired == current ==> count == 0
      ensures desired != current && dryRun ==> count == 1
      ensures desired != current && !dryRun ==>
                asignarCalls == old(asignarCalls) + 1 &&
                if asignarOk(old(asignarCalls), p, desired) then count == 1 && errors == old(errors)
                else count == 0 && errors == old(errors) + [AsignarNivel(p)]
      ensures count + FailedAssign(errors) == FailedAssign(old(errors)) + if desired != current then 1 else 0
      ensures Failed(errors, true) == Failed(old(errors), true) && Failed(errors, false) == Failed(old(errors), false)
    {
      if desired == current {
        return 0;
      }
      if dryRun {
        return 1;
      }
      var ok := asignarOk(asignarCalls, p, desired);
      asignarCalls := asignarCalls + 1;
      if ok {
        count := 1;
      } else {
        FailedConcat(errors, [AsignarNivel(p)]);
        assert [AsignarNivel(p)][..0] == [];
        errors := errors + [AsignarNivel(p)];
        count := 0;
      }
    }

    /**
     * One round of the loop of `sync_profesores`: every level it plans to
     * switch on (off) is either counted in `activar` (`inactivar`) or logged
     * as a failed call, and likewise for the level assignment; a dry run logs
     * nothing.
     */
    method SyncPersona(e: P.ApiProfesor, d: map<int, set<int>>) returns (ghost order: seq<int>)
      modifies this`calls, this`asignarCalls, this`errors, this`activar, this`inactivar, this`asignarNivel, this`skipped
      ensures PlanOf(e, d).InactivateAll? ==> Enumerates(order, e.nivelesActivos)
      ensures State() == PersonaStep(old(State()), Cfg(), e, d, order)
      ensures skipped == old(skipped) + if PlanOf(e, d).Skip? then [e.personaId] else []
      ensures activar + Failed(errors, true) == old(activar) + Failed(old(errors), true) + OnOf(allLevelIds, e, d)
      ensures inactivar + Failed(errors, false) == old(inactivar) + Failed(old(errors), false) + OffOf(allLevelIds, e, d)
      ensures asignarNivel + FailedAssign(errors) == old(asignarNivel) + FailedAssign(old(errors)) + AssignOf(e, d)
      ensures dryRun ==> errors == old(errors)
    {
      var p := e.personaId;
      order := [];
      if p !in d {
        var count;
        count, order := InactivarTodos(e);
        inactivar := inactivar + count;
        return;
      }
      var current := ResolveNivelesActuales(e);
      var desired := d[p];
      if desired == {} {
        if current != {} {
          desired := current;
        } else {
          skipped := skipped + [p];
          return;
        }
      }
      assert PlanOf(e, d) == Apply(desired, current);
      ApplyLevels(e, desired, current);
    }

    /** The end of one round: assign the level set, then switch levels on, then off. */
    method ApplyLevels(e: P.ApiProfesor, desired: set<int>, current: set<int>)
      modifies this`calls, this`asignarCalls, this`errors, this`activar, this`inactivar, this`asignarNivel
      ensures State() == ApplyPlan(old(State()), Cfg(), e, desired, current)
      ensures activar + Failed(errors, true) ==
              old(activar) + Failed(old(errors), true) + |ActivationTargets(allLevelIds, desired, e.nivelesActivos)|
      ensures inactivar + Failed(errors, false) ==
              old(inactivar) + Failed(old(errors), false) + |InactivationTargets(allLevelIds, desired, e.nivelesActivos)|
      ensures asignarNivel + FailedAssign(errors) ==
              old(asignarNivel) + FailedAssign(old(errors)) + if desired != current then 1 else 0
      ensures dryRun ==> errors == old(errors)
    {
      ghost var s0 := State();
      var changed := AssignLevels(e.personaId, desired, current);
      asignarNivel := asignarNivel + changed;
      assert State() == AssignStep(s0, Cfg(), e.personaId, desired, current);
      SwitchLevels(e, desired);
      ApplyPlanAccount(s0, Cfg(), e, desired, current);
    }

    /** `_activar_deseados` then `_inactivar_no_deseados`, each count added to its total. */
    method SwitchLevels(e: P.ApiProfesor, desired: set<int>)
      modifies this`calls, this`errors, this`activar, this`inactivar
      ensures State() == PutStep(PutStep(old(State()), Cfg(), e.personaId, ActivationTargets(allLevelIds, desired, e.nivelesActivos), true),
                                 Cfg(), e.personaId, InactivationTargets(allLevelIds, desired, e.nivelesActivos), false)
    {
      ghost var s0 := State();
      var on := ActivarDeseados(e, desired);
      activar := activar + on;
      ghost var s1 := State();
      assert s1 == PutStep(s0, Cfg(), e.personaId, ActivationTargets(allLevelIds, desired, e.nivelesActivos), true);
      var off := InactivarNoDeseados(e, desired);
      inactivar := inactivar + off;
    }

    /**
     * The loop of `sync_profesores` over the listed personas, accounted
     * against the plans: each planned change is counted or logged as failed,
     * and a dry run counts them all and logs nothing.
     */
    method Run(es: seq<P.ApiProfesor>, d: map<int, set<int>>) returns (ghost orders: seq<seq<int>>)
      modifies this`calls, this`asignarCalls, this`errors, this`activar, this`inactivar, this`asignarNivel, this`skipped
      ensures OrdersFor(es, d, orders) && State() == SyncRun(old(State()), Cfg(), es, d, orders)
      ensures skipped == old(skipped) + Skipped(es, d)
      ensures activar + Failed(errors, true) == old(activar) + Failed(old(errors), true) + PlannedOn(allLevelIds, es, d)
      ensures inactivar + Failed(errors, false) == old(inactivar) + Failed(old(errors), false) + PlannedOff(allLevelIds, es, d)
      ensures asignarNivel + FailedAssign(errors) == old(asignarNivel) + FailedAssign(old(errors)) + PlannedAssign(es, d)
      ensures dryRun ==> errors == old(errors) && calls == old(calls) && asignarCalls == old(asignarCalls)
      ensures !dryRun ==> calls == old(calls) + PlannedOn(allLevelIds, es, d) + PlannedOff(allLevelIds, es, d) &&
                          asignarCalls == old(asignarCalls) + PlannedAssign(es, d)
    {
      ghost var s0 := State();
      orders := [];
      for i := 0 to |es|
        invariant OrdersFor(es[..i], d, orders) && State() == SyncRun(s0, Cfg(), es[..i], d, orders)
      {
        assert es[..i + 1] == es[..i] + [es[i]];
        ghost var o := SyncPersona(es[i], d);
        OrdersForSnoc(es[..i], d, orders, es[i], o);
        assert (orders + [o])[..i] == orders;
        orders := orders + [o];
      }
      assert es[..|es|] == es;
      SyncRunAccount(s0, Cfg(), es, d, orders);
    }
  }

  /**
   * `sync_profesores` after the spreadsheet is consolidated and the personas
   * listed: the summary, the duplicate-key warnings, the unmatched groups,
   * the repeated-match warnings, the skipped personas and the errors. Every
   * planned change is counted in the summary or logged as a failed call, so
   * a dry run reports the plan's own totals and only the listing errors.
   */
  method SyncProfesores(groups: seq<Group>, entries: seq<P.ApiProfesor>, listing: seq<P.ListError>,
                        nivelIds: seq<int>, dryRun: bool,
                        activarOk: (nat, int, int, bool) -> bool, asignarOk: (nat, int, set<int>) -> bool)
    returns (summary: SyncSummary, clashes: set<(seq<char>, int)>, missing: seq<nat>, repeated: seq<int>,
             skipped: seq<int>, errors: seq<SyncError>, ghost ms: seq<Option<int>>, ghost orders: seq<seq<int>>)
    ensures |orders| == |entries|
    ensures var index := Index(Claimants(entries));
            && clashes == IndexClashes(Claimants(entries))
            && Matches(groups, index, ms) && missing == Unmatched(ms) && repeated == Repeated(ms)
    ensures forall g :: g in missing <==> 0 <= g < |groups| && Unindexed(groups[g].keysByType, Index(Claimants(entries)))
    ensures var d := DesiredByPersona(groups, ms);
            var all := if nivelIds != [] then nivelIds else P.AllNiveles;
            && summary.excelGrupos == |groups| && summary.apiProfesores == |entries|
            && summary.excelNoEnApi == |missing| && summary.erroresApi == |listing|
            && skipped == Skipped(entries, d)
            && summary.activar + Failed(errors, true) == PlannedOn(all, entries, d)
            && summary.inactivar + Failed(errors, false) == PlannedOff(all, entries, d)
            && summary.asignarNivel + FailedAssign(errors) == PlannedAssign(entries, d)
            && (dryRun ==> errors == ListingErrors(listing))
    ensures var d := DesiredByPersona(groups, ms);
            var c := SyncConfig(dryRun, if nivelIds != [] then nivelIds else P.AllNiveles, activarOk, asignarOk);
            var r := SyncRun(SyncState(0, 0, ListingErrors(listing), 0, 0, 0, []), c, entries, d, orders);
            && OrdersFor(entries, d, orders)
            && summary.activar == r.activar && summary.inactivar == r.inactivar
            && summary.asignarNivel == r.asignarNivel && skipped == r.skipped && errors == r.errors
            && (AlwaysOk(c) ==> errors == ListingErrors(listing)
                                && summary.activar == PlannedOn(c.all, entries, d)
                                && summary.inactivar == PlannedOff(c.all, entries, d)
                                && summary.asignarNivel == PlannedAssign(entries, d))
  {
    var index;
    index, clashes := BuildApiIndex(entries);
    var desired;
    desired, missing, repeated, ms := MatchExcelToApi(groups, index);
    var sync := new Sync(dryRun, nivelIds, activarOk, asignarOk, listing);
    ghost var s0 := sync.State();
    orders := sync.Run(entries, desired);
    if AlwaysOk(sync.Cfg()) {
      SyncRunAllSucceed(s0, sync.Cfg(), entries, desired, orders);
    }
    summary := SyncSummary(|groups|, |entries|, |missing|, sync.activar, sync.inactivar, sync.asignarNivel, |listing|);
    skipped, errors := sync.skipped, sync.errors;
  }
}
