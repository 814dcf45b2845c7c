/**
 * The planner body of `asignar_profesores_clases`
 * (santillana_format/profesores_clases.py): for every docente and each class
 * it matched, list the class staff once, skip a persona already there or
 * already planned, and otherwise add it (planned in a dry run, assigned
 * through the remote call otherwise); then, when asked, remove from each
 * matched class the staff members no docente asked for.
 *
 * The remote calls are oracles fixed at construction: the answer of the n-th
 * call of each kind, given its arguments.
 */
module ClasesPlanner {
  import opened Text
  import opened ProfesoresClases
  import opened ClasesPlannerSpec

  // ---------------------------------------------------------------- the planner

  class Planner {
    const dryRun: bool
    const removeMissing: bool
    /** Answer of the n-th staff listing, for a class: its persona ids, or None on error. */
    const fetchStaff: (nat, int) -> Option<set<int>>
    /** Whether the n-th assignment call, for a class and persona, succeeds. */
    const assignOk: (nat, int, int) -> bool
    /** Whether the n-th deletion call, for a class and persona, succeeds. */
    const deleteOk: (nat, int, int) -> bool

    var staffCache: map<int, set<int>>
    var plannedByClass: map<int, set<int>>
    var desiredByClass: map<int, set<int>>
    /** The keys of `desiredByClass` in insertion order, the order the removal pass visits them. */
    var classOrder: seq<int>

    var procesados: nat
    var sinMatch: nat
    var encontradas: nat
    var nuevas: nat
    var omitidas: nat
    var eliminaciones: nat
    var erroresApi: nat
    var errors: seq<PlanError>

    /** The remote calls made: listings with their outcome, assignments, deletions. */
    var fetchCalls: seq<(int, bool)>
    var assignCalls: seq<(int, int)>
    var deleteCalls: seq<(int, int)>

    /** The (class, persona) pairs counted as new assignments, and as removals. */
    ghost var added: seq<(int, int)>
    ghost var removed: seq<(int, int)>
    /** The errors raised while handling matches, as opposed to the removal pass. */
    ghost var matchErrors: nat
    /** Matches counted as found and not yet handled. */
    ghost var pending: nat
    /** Each cached class's staff as its listing answered, before any assignment of the run. */
    ghost var listed: map<int, set<int>>

    function State(): Maps
      reads this
    {
      Maps(plannedByClass, staffCache, desiredByClass)
    }

    ghost predicate Valid()
      reads this
    {
      CountsOk() && MatchOk() && AssignsDone() && DeletesDone() && OrderOk(classOrder, desiredByClass)
    }

    /** The counters agree with the pairs and errors recorded. */
    ghost predicate CountsOk()
      reads this`encontradas, this`nuevas, this`omitidas, this`matchErrors, this`pending, this`erroresApi
      reads this`errors, this`eliminaciones, this`added, this`removed
    {
      && CountersOk(encontradas, nuevas, omitidas, matchErrors, pending, erroresApi, |errors|)
      && nuevas == |added| && eliminaciones == |removed|
    }

    /** What the matches leave: each new pair once, the listings, the staff as first listed. */
    ghost predicate MatchOk()
      reads this`added, this`plannedByClass, this`staffCache, this`desiredByClass, this`fetchCalls, this`listed
    {
      MatchInv(added, dryRun, Maps(plannedByClass, staffCache, desiredByClass), fetchCalls, listed)
    }

    /** The assignment calls made so far are of desired pairs, and none in a dry run. */
    ghost predicate AssignsDone()
      reads this`desiredByClass, this`assignCalls
    {
      AssignsOk(dryRun, desiredByClass, assignCalls)
    }

    /** The removals and deletion calls made so far are of undesired personas in desired classes. */
    ghost predicate DeletesDone()
      reads this`desiredByClass, this`deleteCalls, this`removed
    {
      DeletesOk(dryRun, removeMissing, desiredByClass, deleteCalls, removed)
    }

    /** The staff a listing of class `c` gives now: the cached one, or the answer of the next listing call. */
    function Listing(c: int): Option<set<int>>
      reads this
    {
      if c in staffCache then Some(staffCache[c]) else fetchStaff(|fetchCalls|, c)
    }

    /** The planned set of class `c`; empty while none is open. */
    function PlannedOf(c: int): set<int>
      reads this
    {
      if c in plannedByClass then plannedByClass[c] else {}
    }

    /** Pairs recorded as removed in a dry run, or sent to the deletion call otherwise. */
    ghost function Removals(): seq<(int, int)>
      reads this
    {
      if dryRun then removed else deleteCalls
    }

    /** Nothing removed yet: the state while matches are being handled. */
    ghost predicate Matching()
      reads this
    {
      removed == [] && deleteCalls == []
    }

    constructor(dryRun: bool, removeMissing: bool,
                fetchStaff: (nat, int) -> Option<set<int>>,
                assignOk: (nat, int, int) -> bool,
                deleteOk: (nat, int, int) -> bool)
      ensures Valid() && Matching()
      ensures this.dryRun == dryRun && this.removeMissing == removeMissing
      ensures this.fetchStaff == fetchStaff && this.assignOk == assignOk && this.deleteOk == deleteOk
      ensures staffCache == map[] && plannedByClass == map[] && desiredByClass == map[]
      ensures procesados == 0 && sinMatch == 0 && encontradas == 0 && eliminaciones == 0 && errors == []
      ensures pending == 0 && added == [] && listed == map[]
      ensures fetchCalls == [] && assignCalls == []
    {
      this.dryRun := dryRun;
      this.removeMissing := removeMissing;
      this.fetchStaff := fetchStaff;
      this.assignOk := assignOk;
      this.deleteOk := deleteOk;
      staffCache, plannedByClass, desiredByClass, classOrder := map[], map[], map[], [];
      procesados, sinMatch, encontradas, nuevas, omitidas, eliminaciones, erroresApi := 0, 0, 0, 0, 0, 0, 0;
      errors, fetchCalls, assignCalls, deleteCalls := [], [], [], [];
      added, removed, matchErrors, pending, listed := [], [], 0, 0, map[];
    }

    /**
     * The staff of a class: from the cache, or listed remotely; a successful
     * listing is cached, a failed one is not.
     */
    method StaffOf(c: int) returns (staff: Option<set<int>>)
      requires MatchOk()
      modifies this`staffCache, this`fetchCalls, this`listed
      ensures MatchOk()
      ensures staff == old(Listing(c))
      ensures old(c in staffCache) ==> staff == Some(old(staffCache[c])) && fetchCalls == old(fetchCalls)
      ensures old(c !in staffCache) ==>
                staff == fetchStaff(|old(fetchCalls)|, c) && fetchCalls == old(fetchCalls) + [(c, staff.Some?)]
      ensures staff.Some? ==> staffCache == old(staffCache)[c := staff.value]
      ensures staff.None? ==> staffCache == old(staffCache)
      ensures listed == if old(c !in staffCache) && staff.Some? then old(listed)[c := staff.value] else old(listed)
    {
      if c in staffCache {
        staff := Some(staffCache[c]);
      } else {
        staff := fetchStaff(|fetchCalls|, c);
        MatchInvFetch(added, dryRun, State(), fetchCalls, listed, c, staff);
        fetchCalls := fetchCalls + [(c, staff.Some?)];
        if staff.Some? {
          staffCache, listed := staffCache[c := staff.value], listed[c := staff.value];
        }
      }
    }

    /** Records persona `p` as desired in class `c`. */
    method Desire(c: int, p: int)
      requires Valid() && Matching()
      modifies this`desiredByClass, this`classOrder
      ensures Valid() && Matching()
      ensures desiredByClass == AddPersona(old(desiredByClass), c, p)
    {
      MatchInvDesire(added, dryRun, State(), fetchCalls, listed, c, p);
      if c !in desiredByClass {
        classOrder := classOrder + [c];
      }
      desiredByClass := AddPersona(desiredByClass, c, p);
    }

    /**
     * One match of a docente: list the staff (once per class), skip a persona
     * already there or planned, else add it, planned in a dry run or through
     * the assignment call.
     */
    method HandleMatch(c: int, p: int)
      requires CountsOk() && MatchOk() && AssignsDone() && pending > 0
      requires Contains(desiredByClass, c, p)
      modifies this`staffCache, this`fetchCalls, this`plannedByClass, this`assignCalls
      modifies this`nuevas, this`omitidas, this`pending, this`added, this`listed
      modifies this`errors, this`erroresApi, this`matchErrors
      ensures CountsOk() && MatchOk() && AssignsDone()
      ensures nuevas + omitidas + matchErrors == old(nuevas + omitidas + matchErrors) + 1
      ensures pending == old(pending) - 1
      ensures Effect(MatchOutcome(old(Listing(c)), old(PlannedOf(c)), p, dryRun, assignOk(|old(assignCalls)|, c, p)),
                     c, p, old(added), added, old(errors), errors, old(omitidas), omitidas)
      ensures assignCalls == old(assignCalls) + if CallsAssign(old(Listing(c)), old(PlannedOf(c)), p, dryRun) then [(c, p)] else []
      ensures Handled(added, listed, errors, c, p)
      ensures Extends(old(added), old(listed), old(errors), added, listed, errors)
    {
      var staff := StaffOf(c);
      if staff.None? {
        MatchError(ListarStaff, c, p);
      } else {
        HandleListed(c, p);
      }
    }

    /** A match whose class staff is listed (cached): omit, plan or assign. */
    method HandleListed(c: int, p: int)
      requires CountsOk() && MatchOk() && AssignsDone() && pending > 0
      requires Contains(desiredByClass, c, p) && c in staffCache
      modifies this`staffCache, this`plannedByClass, this`assignCalls
      modifies this`nuevas, this`omitidas, this`pending, this`added
      modifies this`errors, this`erroresApi, this`matchErrors
      ensures CountsOk() && MatchOk() && AssignsDone()
      ensures nuevas + omitidas + matchErrors == old(nuevas + omitidas + matchErrors) + 1
      ensures pending == old(pending) - 1
      ensures Effect(MatchOutcome(Some(old(staffCache[c])), old(PlannedOf(c)), p, dryRun, assignOk(|old(assignCalls)|, c, p)),
                     c, p, old(added), added, old(errors), errors, old(omitidas), omitidas)
      ensures assignCalls == old(assignCalls) + if CallsAssign(Some(old(staffCache[c])), old(PlannedOf(c)), p, dryRun) then [(c, p)] else []
      ensures Handled(added, listed, errors, c, p)
    {
      var planned := OpenPlanned(c);
      if p in staffCache[c] || p in planned {
        ListedKnown(listed, staffCache, plannedByClass, added, c, p);
        Omit(c, p);
      } else if dryRun {
        Plan(c, p);
      } else {
        Assign(c, p);
      }
    }

    /** A match that ends in an error of the given kind. */
    method MatchError(kind: ErrorKind, c: int, p: int)
      requires CountsOk() && pending > 0
      modifies this`errors, this`erroresApi, this`matchErrors, this`pending
      ensures CountsOk()
      ensures errors == old(errors) + [PlanError(kind, Some(p), c)]
      ensures matchErrors == old(matchErrors) + 1 && pending == old(pending) - 1
    {
      errors := errors + [PlanError(kind, Some(p), c)];
      erroresApi := erroresApi + 1;
      matchErrors, pending := matchErrors + 1, pending - 1;
    }

    /** A match whose persona is already in the staff or planned: counted as omitted. */
    method Omit(c: int, p: int)
      requires CountsOk() && pending > 0
      requires Contains(staffCache, c, p) || Contains(plannedByClass, c, p)
      modifies this`omitidas, this`pending
      ensures CountsOk()
      ensures omitidas == old(omitidas) + 1 && pending == old(pending) - 1
    {
      omitidas, pending := omitidas + 1, pending - 1;
    }

    /** `planned_by_class.setdefault(c, set())`. */
    method OpenPlanned(c: int) returns (planned: set<int>)
      requires MatchOk()
      modifies this`plannedByClass
      ensures MatchOk()
      ensures planned == (if c in old(plannedByClass) then old(plannedByClass)[c] else {})
      ensures plannedByClass == old(plannedByClass)[c := planned]
    {
      planned := if c in plannedByClass then plannedByClass[c] else {};
      MatchInvOpen(added, dryRun, State(), fetchCalls, listed, c);
      plannedByClass := plannedByClass[c := planned];
    }

    /** Dry run: the persona is planned for the class and counted as new. */
    method Plan(c: int, p: int)
      requires CountsOk() && MatchOk() && pending > 0 && dryRun
      requires Contains(desiredByClass, c, p)
      requires c in plannedByClass && p !in plannedByClass[c]
      requires c in staffCache && p !in staffCache[c]
      modifies this`plannedByClass, this`nuevas, this`pending, this`added
      ensures CountsOk() && MatchOk()
      ensures plannedByClass == old(plannedByClass)[c := old(plannedByClass)[c] + {p}]
      ensures nuevas == old(nuevas) + 1 && pending == old(pending) - 1
      ensures added == old(added) + [(c, p)]
    {
      MatchInvPlan(added, dryRun, State(), fetchCalls, listed, c, p);
      plannedByClass, nuevas, pending := plannedByClass[c := plannedByClass[c] + {p}], nuevas + 1, pending - 1;
      added := added + [(c, p)];
    }

    /** Apply: the assignment call, then the persona joins the staff, or the error is recorded. */
    method Assign(c: int, p: int)
      requires CountsOk() && MatchOk() && AssignsDone() && pending > 0 && !dryRun
      requires Contains(desiredByClass, c, p)
      requires c in staffCache && p !in staffCache[c]
      modifies this`assignCalls, this`staffCache, this`nuevas, this`pending, this`added
      modifies this`errors, this`erroresApi, this`matchErrors
      ensures CountsOk() && MatchOk() && AssignsDone()
      ensures assignCalls == old(assignCalls) + [(c, p)]
      ensures nuevas + matchErrors == old(nuevas + matchErrors) + 1 && pending == old(pending) - 1
      ensures assignOk(|old(assignCalls)|, c, p) ==>
                staffCache == old(staffCache)[c := old(staffCache)[c] + {p}]
                && added == old(added) + [(c, p)] && errors == old(errors)
      ensures !assignOk(|old(assignCalls)|, c, p) ==>
                staffCache == old(staffCache)
                && added == old(added) && errors == old(errors) + [PlanError(AsignarProfesor, Some(p), c)]
    {
      var ok := assignOk(|assignCalls|, c, p);
      assignCalls := assignCalls + [(c, p)];
      if ok {
        Assigned(c, p);
      } else {
        MatchError(AsignarProfesor, c, p);
      }
    }

    /** A successful assignment: the persona joins the cached staff and counts as new. */
    method Assigned(c: int, p: int)
      requires CountsOk() && MatchOk() && pending > 0 && !dryRun
      requires Contains(desiredByClass, c, p)
      requires c in staffCache && p !in staffCache[c]
      modifies this`staffCache, this`nuevas, this`pending, this`added
      ensures CountsOk() && MatchOk()
      ensures staffCache == old(staffCache)[c := old(staffCache)[c] + {p}]
      ensures nuevas == old(nuevas) + 1 && pending == old(pending) - 1
      ensures added == old(added) + [(c, p)]
    {
      MatchInvAssign(added, dryRun, State(), fetchCalls, listed, c, p);
      staffCache, nuevas, pending := staffCache[c := staffCache[c] + {p}], nuevas + 1, pending - 1;
      added := added + [(c, p)];
    }

    /**
     * One docente and its matches: counted as processed; without levels or
     * without matches it counts as unmatched; otherwise its matches are
     * counted as found, recorded as desired, then handled one by one.
     */
    method HandleDocente(d: Docente, matches: seq<Clase>)
      requires Valid() && Matching() && pending == 0
      modifies this`staffCache, this`fetchCalls, this`plannedByClass, this`assignCalls
      modifies this`nuevas, this`omitidas, this`pending, this`added
      modifies this`errors, this`erroresApi, this`matchErrors
      modifies this`procesados, this`sinMatch, this`encontradas, this`desiredByClass, this`classOrder
      modifies this`listed
      requires AllHandled(desiredByClass, added, listed, errors)
      ensures Valid() && Matching() && pending == 0
      ensures AllHandled(desiredByClass, added, listed, errors)
      ensures Extends(old(added), old(listed), old(errors), added, listed, errors)
      ensures procesados == old(procesados) + 1
      ensures desiredByClass == if |d.desired| == 0 then old(desiredByClass)
                                else AddMatches(old(desiredByClass), d.personaId, matches)
      ensures encontradas == old(encontradas) + if |d.desired| == 0 then 0 else |matches|
      ensures sinMatch == old(sinMatch) + if |d.desired| == 0 || matches == [] then 1 else 0
    {
      ExtendsRefl(added, listed, errors);
      var proceed := Tally(|d.desired| == 0, |matches|);
      if !proceed {
        return;
      }
      DesireAll(d.personaId, matches);
      AddMatchesHolds(old(desiredByClass), d.personaId, matches);
      HandledButStart(old(desiredByClass), added, listed, errors, d.personaId, matches);
      HandleAll(d.personaId, matches);
    }

    /**
     * The counters of one docente: processed; unmatched when it has no levels
     * or no matches; otherwise its matches are found and pending.
     */
    method Tally(noLevels: bool, found: nat) returns (proceed: bool)
      requires CountsOk() && pending == 0
      modifies this`procesados, this`sinMatch, this`encontradas, this`pending
      ensures CountsOk()
      ensures proceed <==> !noLevels && found > 0
      ensures procesados == old(procesados) + 1
      ensures encontradas == old(encontradas) + if noLevels then 0 else found
      ensures sinMatch == old(sinMatch) + if proceed then 0 else 1
      ensures pending == if noLevels then 0 else found
    {
      procesados := procesados + 1;
      if noLevels {
        sinMatch := sinMatch + 1;
        return false;
      }
      encontradas, pending := encontradas + found, found;
      if found == 0 {
        sinMatch := sinMatch + 1;
        return false;
      }
      return true;
    }

    /** Records the persona as desired in every matched class. */
    method DesireAll(p: int, matches: seq<Clase>)
      requires Valid() && Matching()
      modifies this`desiredByClass, this`classOrder
      ensures Valid() && Matching()
      ensures desiredByClass == AddMatches(old(desiredByClass), p, matches)
      ensures procesados == old(procesados) && encontradas == old(encontradas) && sinMatch == old(sinMatch)
    {
      var k := 0;
      while k < |matches|
        invariant 0 <= k <= |matches|
        invariant Valid() && Matching()
        invariant desiredByClass == AddMatches(old(desiredByClass), p, matches[..k])
      {
        assert matches[..k + 1][..k] == matches[..k];
        Desire(matches[k].id, p);
        k := k + 1;
      }
      assert matches[..k] == matches;
    }

    /** Handles every match of the persona, each one new, omitted or an error. */
    method HandleAll(p: int, matches: seq<Clase>)
      requires Valid() && Matching() && pending == |matches|
      requires forall k :: 0 <= k < |matches| ==> Contains(desiredByClass, matches[k].id, p)
      requires HandledBut(desiredByClass, added, listed, errors, p, matches)
      modifies this`staffCache, this`fetchCalls, this`plannedByClass, this`assignCalls
      modifies this`nuevas, this`omitidas, this`pending, this`added, this`listed
      modifies this`errors, this`erroresApi, this`matchErrors
      ensures Valid() && Matching() && pending == 0
      ensures procesados == old(procesados) && encontradas == old(encontradas) && sinMatch == old(sinMatch)
      ensures desiredByClass == old(desiredByClass)
      ensures AllHandled(desiredByClass, added, listed, errors)
      ensures Extends(old(added), old(listed), old(errors), added, listed, errors)
    {
      ExtendsRefl(added, listed, errors);
      var k := 0;
      while k < |matches|
        invariant 0 <= k <= |matches|
        invariant CountsOk() && MatchOk() && AssignsDone() && pending == |matches| - k
        invariant HandledBut(desiredByClass, added, listed, errors, p, matches[k..])
        invariant Extends(old(added), old(listed), old(errors), added, listed, errors)
      {
        ghost var a, l, e := added, listed, errors;
        HandleMatch(matches[k].id, p);
        assert matches[k..][0] == matches[k] && matches[k..][1..] == matches[k + 1..];
        HandledButStep(desiredByClass, a, l, e, added, listed, errors, p, matches[k..]);
        ExtendsTrans(old(added), old(listed), old(errors), a, l, e, added, listed, errors);
        k := k + 1;
      }
      assert Ids(matches[k..]) == {};
    }

    /**
     * The run over the docentes: each one handled with its matches against
     * the catalog; then, when removal is asked for and some class matched,
     * the removal pass. Returns whether the "no valid docentes" warning is due.
     */
    method Run(ds: seq<Docente>, clases: seq<Clase>) returns (noDocentes: bool)
      requires Valid() && Matching() && pending == 0
      requires desiredByClass == map[] && procesados == 0 && sinMatch == 0 && encontradas == 0
      modifies this`staffCache, this`fetchCalls, this`plannedByClass, this`assignCalls, this`deleteCalls
      modifies this`nuevas, this`omitidas, this`pending, this`added, this`removed, this`eliminaciones
      modifies this`errors, this`erroresApi, this`matchErrors, this`listed
      modifies this`procesados, this`sinMatch, this`encontradas, this`desiredByClass, this`classOrder
      ensures Valid() && pending == 0
      ensures procesados == |ds| && sinMatch == Unmatched(ds, clases) && encontradas == Found(ds, clases)
      ensures desiredByClass == DesiredByClass(ds, clases)
      ensures noDocentes <==> ds == []
      ensures forall c, p :: MatchedPair(ds, clases, c, p) ==> Handled(added, listed, errors, c, p)
      ensures forall k :: 0 <= k < |added| ==>
                MatchedPair(ds, clases, added[k].0, added[k].1) && added[k].0 in listed && added[k].1 !in listed[added[k].0]
      ensures removeMissing ==>
                Distinct(Removals()) &&
                forall c, q :: (c, q) in Removals() <==>
                  MatchedClass(ds, clases, c) && Contains(listed, c, q) && !MatchedPair(ds, clases, c, q)
      ensures !removeMissing ==> deleteCalls == [] && eliminaciones == 0
    {
      var i := 0;
      while i < |ds|
        invariant 0 <= i <= |ds|
        invariant Valid() && Matching() && pending == 0
        invariant procesados == i && sinMatch == Unmatched(ds[..i], clases) && encontradas == Found(ds[..i], clases)
        invariant desiredByClass == DesiredByClass(ds[..i], clases)
        invariant AllHandled(desiredByClass, added, listed, errors)
      {
        assert ds[..i + 1][..i] == ds[..i];
        HandleDocente(ds[i], MatchClases(ds[i], clases));
        i := i + 1;
      }
      assert ds[..i] == ds;
      if removeMissing && desiredByClass != map[] {
        ghost var a, l, e := added, listed, errors;
        RemovalPass();
        AllHandledStable(desiredByClass, a, l, e, added, listed, errors);
        RemovalsMatched(Removals(), classOrder, ds, clases, listed);
      } else if removeMissing {
        RemovalsMatched(Removals(), [], ds, clases, listed);
      }
      HandledMatched(ds, clases, added, listed, errors);
      AddedMatched(ds, clases, added, dryRun, State(), listed);
      noDocentes := procesados == 0;
    }

    /**
     * Visits the matched classes in insertion order and removes their
     * undesired staff: afterwards the removals are, once each, the pairs of a
     * matched class with a member of its listed staff it does not desire.
     */
    method RemovalPass()
      requires Valid() && Matching() && pending == 0 && removeMissing
      modifies this`staffCache, this`fetchCalls, this`deleteCalls, this`eliminaciones, this`removed
      modifies this`errors, this`erroresApi, this`listed
      ensures Valid() && pending == 0
      ensures desiredByClass == old(desiredByClass) && procesados == old(procesados)
      ensures RemovalsAre(Removals(), classOrder, desiredByClass, listed)
      ensures Extends(old(added), old(listed), old(errors), added, listed, errors)
    {
      ExtendsRefl(added, listed, errors);
      var i := 0;
      while i < |classOrder|
        invariant 0 <= i <= |classOrder|
        invariant CountsOk() && MatchOk() && DeletesDone() && pending == 0
        invariant RemovalsAre(Removals(), classOrder[..i], desiredByClass, listed)
        invariant Extends(old(added), old(listed), old(errors), added, listed, errors)
      {
        ghost var w, l, e := Removals(), listed, errors;
        var c := classOrder[i];
        DistinctNext(classOrder, i);
        var staff, toRemove := RemoveFromClass(c);
        RemovalsStep(w, classOrder[..i], desiredByClass, l, listed, c, toRemove);
        ExtendsTrans(old(added), old(listed), old(errors), added, l, e, added, listed, errors);
        i := i + 1;
      }
      assert classOrder[..i] == classOrder;
    }

    /**
     * One matched class: list its staff (unless cached) and remove, in
     * ascending id order, every persona no docente asked for in it. A failed
     * listing is logged without a persona and removes nothing.
     */
    method RemoveFromClass(c: int) returns (staff: Option<set<int>>, toRemove: seq<int>)
      requires CountsOk() && MatchOk() && DeletesDone() && pending == 0 && removeMissing && c in desiredByClass
      modifies this`staffCache, this`fetchCalls, this`deleteCalls, this`eliminaciones, this`removed
      modifies this`errors, this`erroresApi, this`listed
      ensures CountsOk() && MatchOk() && DeletesDone() && pending == 0
      ensures desiredByClass == old(desiredByClass) && procesados == old(procesados)
      ensures staff == old(Listing(c))
      ensures staff.None? ==>
                toRemove == [] && errors == old(errors) + [PlanError(ListarStaff, None, c)]
                && eliminaciones == old(eliminaciones)
      ensures staff.Some? ==>
                RemovalList(toRemove, staff.value, desiredByClass[c])
                && eliminaciones + erroresApi == old(eliminaciones + erroresApi) + |toRemove|
      ensures staff.Some? ==>
                RemovalTrace(dryRun, c, toRemove, deleteOk, |old(deleteCalls)|,
                             old(deleteCalls), old(removed), old(errors), deleteCalls, removed, errors)
      ensures Removals() == old(Removals()) + ClassPairs(c, toRemove)
      ensures listed == if old(c !in staffCache) && staff.Some? then old(listed)[c := staff.value]
                        else old(listed)
      ensures c in listed ==> forall x :: x in toRemove <==> x in listed[c] && x !in desiredByClass[c]
      ensures c !in listed ==> toRemove == []
      ensures Extends(added, old(listed), old(errors), added, listed, errors)
    {
      staff := StaffOf(c);
      toRemove := RemoveAfterListing(c, staff);
    }

    /**
     * The removals once class `c` has been listed as `staff`: a failed
     * listing is logged and removes nothing, a listed class loses its
     * undesired members.
     */
    method RemoveAfterListing(c: int, staff: Option<set<int>>) returns (toRemove: seq<int>)
      requires CountsOk() && MatchOk() && DeletesDone() && pending == 0 && removeMissing && c in desiredByClass
      requires staff.Some? ==> c in staffCache && staffCache[c] == staff.value
      requires staff.None? ==> c !in listed
      modifies this`deleteCalls, this`eliminaciones, this`removed, this`errors, this`erroresApi
      ensures CountsOk() && DeletesDone() && pending == 0
      ensures staff.None? ==>
                toRemove == [] && errors == old(errors) + [PlanError(ListarStaff, None, c)]
                && eliminaciones == old(eliminaciones)
      ensures staff.Some? ==>
                RemovalList(toRemove, staff.value, desiredByClass[c])
                && eliminaciones + erroresApi == old(eliminaciones + erroresApi) + |toRemove|
      ensures staff.Some? ==>
                RemovalTrace(dryRun, c, toRemove, deleteOk, |old(deleteCalls)|,
                             old(deleteCalls), old(removed), old(errors), deleteCalls, removed, errors)
      ensures Removals() == old(Removals()) + ClassPairs(c, toRemove)
      ensures c in listed ==> forall x :: x in toRemove <==> x in listed[c] && x !in desiredByClass[c]
      ensures c !in listed ==> toRemove == []
      ensures old(errors) <= errors
    {
      if staff.None? {
        ListingError(c);
        assert ClassPairs(c, []) == [];
        return [];
      }
      toRemove := RemoveListed(c);
    }

    /**
     * A class whose staff is listed: its undesired members, in ascending id
     * order, each removed in turn.
     */
    method RemoveListed(c: int) returns (toRemove: seq<int>)
      requires CountsOk() && MatchOk() && DeletesDone() && pending == 0 && removeMissing
      requires c in desiredByClass && c in staffCache
      modifies this`deleteCalls, this`eliminaciones, this`removed, this`errors, this`erroresApi
      ensures CountsOk() && DeletesDone() && pending == 0
      ensures RemovalList(toRemove, staffCache[c], desiredByClass[c])
      ensures c in listed && forall x :: x in toRemove <==> x in listed[c] && x !in desiredByClass[c]
      ensures eliminaciones + erroresApi == old(eliminaciones + erroresApi) + |toRemove|
      ensures RemovalTrace(dryRun, c, toRemove, deleteOk, |old(deleteCalls)|,
                           old(deleteCalls), old(removed), old(errors), deleteCalls, removed, errors)
      ensures Removals() == old(Removals()) + ClassPairs(c, toRemove)
    {
      ListedTargets(listed, staffCache, plannedByClass, added, desiredByClass, c);
      toRemove := SortSet(staffCache[c] - desiredByClass[c]);
      forall k | 0 <= k < |toRemove|
        ensures toRemove[k] !in desiredByClass[c]
      {
        assert toRemove[k] in toRemove;
      }
      RemoveAll(c, toRemove);
    }

    /**
     * Removes the given personas from class `c`, in order: all of them in a
     * dry run; otherwise each through the deletion call, removed when it
     * succeeds and logged as an `eliminar_profesor` error when it fails.
     */
    method RemoveAll(c: int, toRemove: seq<int>)
      requires CountsOk() && DeletesDone() && pending == 0 && removeMissing && c in desiredByClass
      requires forall k :: 0 <= k < |toRemove| ==> toRemove[k] !in desiredByClass[c]
      modifies this`deleteCalls, this`eliminaciones, this`removed, this`errors, this`erroresApi
      ensures CountsOk() && DeletesDone() && pending == 0
      ensures eliminaciones + erroresApi == old(eliminaciones + erroresApi) + |toRemove|
      ensures RemovalTrace(dryRun, c, toRemove, deleteOk, |old(deleteCalls)|,
                           old(deleteCalls), old(removed), old(errors), deleteCalls, removed, errors)
    {
      ghost var n, d0, r0, e0 := |deleteCalls|, deleteCalls, removed, errors;
      RemovalTraceStart(dryRun, c, deleteOk, d0, r0, e0);
      var k := 0;
      while k < |toRemove|
        invariant 0 <= k <= |toRemove|
        invariant CountsOk() && DeletesDone() && pending == 0
        invariant eliminaciones + erroresApi == old(eliminaciones + erroresApi) + k
        invariant RemovalTrace(dryRun, c, toRemove[..k], deleteOk, n, d0, r0, e0, deleteCalls, removed, errors)
      {
        ghost var d, r, e := deleteCalls, removed, errors;
        RemoveOne(c, toRemove[k]);
        RemovalTraceStep(dryRun, c, toRemove, deleteOk, n, k, d0, r0, e0, d, r, e, deleteCalls, removed, errors);
        k := k + 1;
      }
      assert toRemove[..k] == toRemove;
    }

    /** A failed staff listing in the removal pass: logged without a persona. */
    method ListingError(c: int)
      requires CountsOk() && pending == 0
      modifies this`errors, this`erroresApi
      ensures CountsOk() && pending == 0
      ensures errors == old(errors) + [PlanError(ListarStaff, None, c)]
      ensures eliminaciones == old(eliminaciones) && removed == old(removed) && deleteCalls == old(deleteCalls)
    {
      errors := errors + [PlanError(ListarStaff, None, c)];
      erroresApi := erroresApi + 1;
    }

    /**
     * Removes one persona from a class: counted only in a dry run; otherwise
     * the deletion call, counted on success and recorded as an error on failure.
     */
    method RemoveOne(c: int, p: int)
      requires CountsOk() && DeletesDone() && pending == 0 && removeMissing && c in desiredByClass && p !in desiredByClass[c]
      modifies this`deleteCalls, this`eliminaciones, this`removed, this`errors, this`erroresApi
      ensures CountsOk() && DeletesDone() && pending == 0
      ensures eliminaciones + erroresApi == old(eliminaciones + erroresApi) + 1
      ensures deleteCalls == old(deleteCalls) + if dryRun then [] else [(c, p)]
      ensures removed == old(removed) + if dryRun || deleteOk(|old(deleteCalls)|, c, p) then [(c, p)] else []
      ensures errors == old(errors) + if dryRun || deleteOk(|old(deleteCalls)|, c, p) then []
                                      else [PlanError(EliminarProfesor, Some(p), c)]
    {
      if dryRun {
        Eliminated(c, p);
        return;
      }
      var ok := deleteOk(|deleteCalls|, c, p);
      DeleteCalled(c, p);
      if ok {
        Eliminated(c, p);
      } else {
        DeleteError(c, p);
      }
    }

    /** Records a deletion call to the API. */
    method DeleteCalled(c: int, p: int)
      requires DeletesDone() && pending == 0 && removeMissing && !dryRun && c in desiredByClass && p !in desiredByClass[c]
      modifies this`deleteCalls
      ensures DeletesDone() && pending == 0
      ensures deleteCalls == old(deleteCalls) + [(c, p)]
      ensures eliminaciones == old(eliminaciones) && erroresApi == old(erroresApi)
    {
      deleteCalls := deleteCalls + [(c, p)];
    }

    /** Counts one persona removed from a class. */
    method Eliminated(c: int, p: int)
      requires CountsOk() && DeletesDone() && pending == 0 && removeMissing && c in desiredByClass && p !in desiredByClass[c]
      modifies this`eliminaciones, this`removed
      ensures CountsOk() && DeletesDone() && pending == 0
      ensures eliminaciones == old(eliminaciones) + 1 && removed == old(removed) + [(c, p)]
      ensures erroresApi == old(erroresApi) && deleteCalls == old(deleteCalls)
    {
      eliminaciones := eliminaciones + 1;
      removed := removed + [(c, p)];
    }

    /** A failed deletion: logged with its persona. */
    method DeleteError(c: int, p: int)
      requires CountsOk() && pending == 0
      modifies this`errors, this`erroresApi
      ensures CountsOk() && pending == 0
      ensures errors == old(errors) + [PlanError(EliminarProfesor, Some(p), c)]
      ensures erroresApi == old(erroresApi) + 1
      ensures eliminaciones == old(eliminaciones) && deleteCalls == old(deleteCalls)
    {
      errors := errors + [PlanError(EliminarProfesor, Some(p), c)];
      erroresApi := erroresApi + 1;
    }
  }
}
