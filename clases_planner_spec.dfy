/**
 * What the planner of `asignar_profesores_clases`
 * (santillana_format/profesores_clases.py) asks for and keeps: the class to
 * personas map a run builds from the matches, what it means, and the
 * invariants of the planner state, stated on values.
 */
module ClasesPlannerSpec {
  import opened Text
  import opened ProfesoresClases

  datatype ErrorKind = ListarStaff | AsignarProfesor | EliminarProfesor

  /** An entry of the error list; `personaId` is absent for a failed listing in the removal pass. */
  datatype PlanError = PlanError(kind: ErrorKind, personaId: Option<int>, claseId: int)

  // ---------------------------------------------------------------- what the run asks for

  /** `desired_by_class.setdefault(c, set()).add(p)`. */
  function AddPersona(m: map<int, set<int>>, c: int, p: int): map<int, set<int>> {
    m[c := (if c in m then m[c] else {}) + {p}]
  }

  /** Persona `p` is recorded under class `c`. */
  predicate Contains(m: map<int, set<int>>, c: int, p: int) {
    c in m && p in m[c]
  }

  /** Every pair recorded in `m` is still recorded in `m'`. */
  ghost predicate Grows(m: map<int, set<int>>, m': map<int, set<int>>) {
    forall c, p :: Contains(m, c, p) ==> Contains(m', c, p)
  }

  /** Replacing a class's set by a superset keeps every recorded pair. */
  lemma GrowsUpdate(m: map<int, set<int>>, c: int, v: set<int>)
    requires c in m ==> m[c] <= v
    ensures Grows(m, m[c := v])
  {
  }

  lemma GrowsRefl(m: map<int, set<int>>)
    ensures Grows(m, m)
  {
  }

  /** The class ids of a match list. */
  function Ids(ms: seq<Clase>): set<int> {
    if ms == [] then {} else Ids(ms[..|ms| - 1]) + {ms[|ms| - 1].id}
  }

  lemma {:induction false} IdsMeaning(ms: seq<Clase>)
    ensures forall c :: c in Ids(ms) <==> exists cl :: cl in ms && cl.id == c
  {
    if ms != [] {
      var init := ms[..|ms| - 1];
      IdsMeaning(init);
      assert forall cl :: cl in ms <==> cl in init || cl == ms[|ms| - 1];
    }
  }

  lemma IdsHas(ms: seq<Clase>)
    ensures forall k :: 0 <= k < |ms| ==> ms[k].id in Ids(ms)
  {
    IdsMeaning(ms);
    forall k | 0 <= k < |ms|
      ensures ms[k].id in Ids(ms)
    {
      assert ms[k] in ms;
    }
  }

  /** Records persona `p` for every matched class, in order. */
  function AddMatches(m: map<int, set<int>>, p: int, ms: seq<Clase>): map<int, set<int>> {
    if ms == [] then m
    else AddPersona(AddMatches(m, p, ms[..|ms| - 1]), ms[|ms| - 1].id, p)
  }

  /** The class to personas map the run builds; a docente without levels adds nothing. */
  function DesiredByClass(ds: seq<Docente>, clases: seq<Clase>): map<int, set<int>> {
    if ds == [] then map[]
    else
      var d := ds[|ds| - 1];
      var m := DesiredByClass(ds[..|ds| - 1], clases);
      if |d.desired| == 0 then m else AddMatches(m, d.personaId, MatchClases(d, clases))
  }

  /** Some docente of persona `p` matched a catalog class of id `c`. */
  ghost predicate MatchedPair(ds: seq<Docente>, clases: seq<Clase>, c: int, p: int) {
    exists d, cl :: d in ds && cl in clases && d.cursoNorm != [] && Matches(d, cl) && d.personaId == p && cl.id == c
  }

  /** Some docente matched some class with this id. */
  ghost predicate MatchedClass(ds: seq<Docente>, clases: seq<Clase>, c: int) {
    exists p :: MatchedPair(ds, clases, c, p)
  }

  lemma {:induction false} AddMatchesMeaning(m: map<int, set<int>>, p: int, ms: seq<Clase>)
    ensures forall c, q :: Contains(AddMatches(m, p, ms), c, q) <==> Contains(m, c, q) || (q == p && c in Ids(ms))
  {
    if ms != [] {
      AddMatchesMeaning(m, p, ms[..|ms| - 1]);
      var before := AddMatches(m, p, ms[..|ms| - 1]);
      forall c, q
        ensures Contains(AddMatches(m, p, ms), c, q) <==> Contains(before, c, q) || (q == p && c == ms[|ms| - 1].id)
      {
      }
    }
  }

  /** After recording, the persona is desired in each matched class. */
  lemma AddMatchesHolds(m: map<int, set<int>>, p: int, ms: seq<Clase>)
    ensures forall k :: 0 <= k < |ms| ==> Contains(AddMatches(m, p, ms), ms[k].id, p)
  {
    AddMatchesMeaning(m, p, ms);
    IdsHas(ms);
  }

  /** Every class in the map holds some persona. */
  lemma {:induction false} AddMatchesNonEmpty(m: map<int, set<int>>, p: int, ms: seq<Clase>)
    requires forall c :: c in m ==> m[c] != {}
    ensures forall c :: c in AddMatches(m, p, ms) ==> AddMatches(m, p, ms)[c] != {}
  {
    if ms != [] {
      AddMatchesNonEmpty(m, p, ms[..|ms| - 1]);
      var last := AddMatches(m, p, ms[..|ms| - 1]);
      assert p in AddMatches(m, p, ms)[ms[|ms| - 1].id];
    }
  }

  /**
   * The map holds persona `p` under class `c` exactly when a docente of `p`
   * matched a class of id `c`: nothing outside the matched classes is desired.
   */
  lemma {:induction false} DesiredByClassMeaning(ds: seq<Docente>, clases: seq<Clase>)
    ensures forall c, p :: Contains(DesiredByClass(ds, clases), c, p) <==> MatchedPair(ds, clases, c, p)
  {
    if ds != [] {
      var init := ds[..|ds| - 1];
      var d := ds[|ds| - 1];
      var ms := MatchClases(d, clases);
      DesiredByClassMeaning(init, clases);
      AddMatchesMeaning(DesiredByClass(init, clases), d.personaId, ms);
      IdsMeaning(ms);
      forall c, p | Contains(DesiredByClass(ds, clases), c, p)
        ensures MatchedPair(ds, clases, c, p)
      {
        if MatchedPair(init, clases, c, p) {
          var d', cl :| d' in init && cl in clases && d'.cursoNorm != [] && Matches(d', cl) && d'.personaId == p && cl.id == c;
          assert d' in ds;
        } else {
          var cl :| cl in ms && cl.id == c;
          assert d in ds;
        }
      }
      forall c, p | MatchedPair(ds, clases, c, p)
        ensures Contains(DesiredByClass(ds, clases), c, p)
      {
        var d', cl :| d' in ds && cl in clases && d'.cursoNorm != [] && Matches(d', cl) && d'.personaId == p && cl.id == c;
        if d' in init {
          assert MatchedPair(init, clases, c, p);
        } else {
          assert d' == d;
          assert cl in ms;
        }
      }
    }
  }

  /** Every class of the map was matched by some docente. */
  lemma {:induction false} DesiredClassesMatched(ds: seq<Docente>, clases: seq<Clase>)
    ensures forall c :: c in DesiredByClass(ds, clases) ==> exists p :: MatchedPair(ds, clases, c, p)
  {
    DesiredByClassNonEmpty(ds, clases);
    DesiredByClassMeaning(ds, clases);
    forall c | c in DesiredByClass(ds, clases)
      ensures exists p :: MatchedPair(ds, clases, c, p)
    {
      var m := DesiredByClass(ds, clases);
      NoMemberEmpty(m[c]);
      var p :| p in m[c];
      assert Contains(m, c, p);
    }
  }

  lemma {:induction false} DesiredByClassNonEmpty(ds: seq<Docente>, clases: seq<Clase>)
    ensures forall c :: c in DesiredByClass(ds, clases) ==> DesiredByClass(ds, clases)[c] != {}
  {
    if ds != [] {
      var d := ds[|ds| - 1];
      DesiredByClassNonEmpty(ds[..|ds| - 1], clases);
      AddMatchesNonEmpty(DesiredByClass(ds[..|ds| - 1], clases), d.personaId, MatchClases(d, clases));
    }
  }

  // ---------------------------------------------------------------- planner invariants

  predicate Distinct<T(==)>(s: seq<T>) {
    forall i, j :: 0 <= i < j < |s| ==> s[i] != s[j]
  }

  /** The next element of a sequence without repeats is not in the prefix before it, and extends it. */
  lemma DistinctNext<T>(s: seq<T>, i: nat)
    requires Distinct(s) && i < |s|
    ensures s[i] !in s[..i] && s[..i + 1] == s[..i] + [s[i]]
  {
    assert s[..i + 1] == s[..i] + [s[i]];
  }

  /** The maps the planner keeps for the run. */
  datatype Maps = Maps(planned: map<int, set<int>>, staff: map<int, set<int>>, desired: map<int, set<int>>)

  /** Where a new assignment is recorded: planned in a dry run, in the cached staff otherwise. */
  predicate Holds(dryRun: bool, ms: Maps, c: int, p: int) {
    if dryRun then Contains(ms.planned, c, p) else Contains(ms.staff, c, p)
  }

  ghost predicate MapsGrow(ms: Maps, ms': Maps) {
    Grows(ms.planned, ms'.planned) && Grows(ms.staff, ms'.staff) && Grows(ms.desired, ms'.desired)
  }

  /** No (class, persona) pair is added twice; each one added is recorded and desired. */
  ghost predicate AddedOk(added: seq<(int, int)>, dryRun: bool, ms: Maps) {
    && Distinct(added)
    && (forall k :: 0 <= k < |added| ==> Holds(dryRun, ms, added[k].0, added[k].1))
    && (forall k :: 0 <= k < |added| ==> Contains(ms.desired, added[k].0, added[k].1))
  }

  lemma AddedOkGrows(added: seq<(int, int)>, dryRun: bool, ms: Maps, ms': Maps)
    requires AddedOk(added, dryRun, ms) && MapsGrow(ms, ms')
    ensures AddedOk(added, dryRun, ms')
  {
    forall k | 0 <= k < |added|
      ensures Holds(dryRun, ms', added[k].0, added[k].1) && Contains(ms'.desired, added[k].0, added[k].1)
    {
      assert Holds(dryRun, ms, added[k].0, added[k].1);
    }
  }

  /** A pair newly recorded, that was not recorded before, extends the added list without repeating. */
  lemma AddedOkAppend(added: seq<(int, int)>, dryRun: bool, ms: Maps, ms': Maps, c: int, p: int)
    requires AddedOk(added, dryRun, ms) && MapsGrow(ms, ms')
    requires !Holds(dryRun, ms, c, p) && Holds(dryRun, ms', c, p) && Contains(ms'.desired, c, p)
    ensures AddedOk(added + [(c, p)], dryRun, ms')
  {
    AddedOkGrows(added, dryRun, ms, ms');
    forall k | 0 <= k < |added|
      ensures added[k] != (c, p)
    {
      assert Holds(dryRun, ms, added[k].0, added[k].1);
    }
  }

  /** A class's staff is listed successfully at most once, and every success is cached. */
  ghost predicate FetchOk(calls: seq<(int, bool)>, cache: map<int, set<int>>) {
    && (forall i, j :: 0 <= i < j < |calls| && calls[i].1 && calls[j].1 ==> calls[i].0 != calls[j].0)
    && (forall k :: 0 <= k < |calls| && calls[k].1 ==> calls[k].0 in cache)
  }

  /** Listing a class that is not cached keeps the property, whatever the answer. */
  lemma FetchOkStep(calls: seq<(int, bool)>, cache: map<int, set<int>>, c: int, r: Option<set<int>>)
    requires FetchOk(calls, cache) && c !in cache
    ensures FetchOk(calls + [(c, r.Some?)], if r.Some? then cache[c := r.value] else cache)
  {
    var calls' := calls + [(c, r.Some?)];
    forall k | 0 <= k < |calls|
      ensures calls'[k] == calls[k]
    {
    }
  }

  /** A dry run calls no assignment; assignments go to desired pairs only. */
  ghost predicate AssignsOk(dryRun: bool, desired: map<int, set<int>>, assigns: seq<(int, int)>) {
    && (dryRun ==> assigns == [])
    && (forall k :: 0 <= k < |assigns| ==> Contains(desired, assigns[k].0, assigns[k].1))
  }

  /**
   * A dry run calls no deletion; removals and deletions happen only when
   * asked, in a desired class, to a persona it does not desire.
   */
  ghost predicate DeletesOk(dryRun: bool, removeMissing: bool, desired: map<int, set<int>>,
                            deletes: seq<(int, int)>, removed: seq<(int, int)>)
  {
    && (dryRun ==> deletes == [])
    && (forall k :: 0 <= k < |deletes| ==>
          removeMissing && deletes[k].0 in desired && !Contains(desired, deletes[k].0, deletes[k].1))
    && (forall k :: 0 <= k < |removed| ==>
          removeMissing && removed[k].0 in desired && !Contains(desired, removed[k].0, removed[k].1))
  }

  /** The writes of a run: assignments and deletions, each within what the run asked for. */
  ghost predicate WritesOk(dryRun: bool, removeMissing: bool, desired: map<int, set<int>>,
                           assigns: seq<(int, int)>, deletes: seq<(int, int)>, removed: seq<(int, int)>)
  {
    AssignsOk(dryRun, desired, assigns) && DeletesOk(dryRun, removeMissing, desired, deletes, removed)
  }

  /**
   * Each match found ends as exactly one of: new, omitted, error (or is still
   * pending), and every error counted is listed.
   */
  predicate CountersOk(found: nat, nuevas: nat, omitidas: nat, matchErrors: nat, pending: nat,
                       erroresApi: nat, listed: nat)
  {
    found == nuevas + omitidas + matchErrors + pending && erroresApi == listed && matchErrors <= erroresApi
  }

  /** The classes in insertion order: each key once. */
  ghost predicate OrderOk(order: seq<int>, desired: map<int, set<int>>) {
    Distinct(order) && forall c :: c in desired <==> c in order
  }

  /**
   * What a run may write, stated on the docentes and the catalog: every
   * assignment is a (class, persona) pair some docente matched; every
   * deletion is in a class some docente matched, of a persona no docente
   * matched there, and only when removal was asked for; a dry run writes
   * nothing.
   */
  lemma RunContained(ds: seq<Docente>, clases: seq<Clase>, dryRun: bool, removeMissing: bool,
                     assigns: seq<(int, int)>, deletes: seq<(int, int)>, removed: seq<(int, int)>)
    requires WritesOk(dryRun, removeMissing, DesiredByClass(ds, clases), assigns, deletes, removed)
    ensures dryRun ==> assigns == [] && deletes == []
    ensures forall k :: 0 <= k < |assigns| ==> MatchedPair(ds, clases, assigns[k].0, assigns[k].1)
    ensures deletes != [] ==> removeMissing
    ensures forall k :: 0 <= k < |deletes| ==> !MatchedPair(ds, clases, deletes[k].0, deletes[k].1)
    ensures forall k :: 0 <= k < |deletes| ==> MatchedClass(ds, clases, deletes[k].0)
  {
    var desired := DesiredByClass(ds, clases);
    DesiredByClassMeaning(ds, clases);
    DesiredClassesMatched(ds, clases);
    forall k | 0 <= k < |deletes|
      ensures removeMissing
      ensures !MatchedPair(ds, clases, deletes[k].0, deletes[k].1)
      ensures MatchedClass(ds, clases, deletes[k].0)
    {
      var (c, p) := deletes[k];
      assert c in desired && !Contains(desired, c, p);
      assert !MatchedPair(ds, clases, c, p);
      assert exists q :: MatchedPair(ds, clases, c, q);
    }
    if deletes != [] {
      assert deletes[0] in deletes;
    }
  }

  // ---------------------------------------------------------------- decisions on one match

  /** What becomes of one match. */
  datatype Outcome = Omitted | Added | Failed(kind: ErrorKind)

  /**
   * The decision for persona `p` in a class whose staff listing answered
   * `listing` and whose planned set is `planned`: a failed listing is a
   * `listar_staff` error; a persona already in the staff or planned is
   * omitted; any other is added in a dry run, and outside one exactly when
   * the assignment call answers `answer`, an `asignar_profesor` error
   * otherwise.
   */
  function MatchOutcome(listing: Option<set<int>>, planned: set<int>, p: int, dryRun: bool, answer: bool): Outcome {
    if listing.None? then Failed(ListarStaff)
    else if p in listing.value || p in planned then Omitted
    else if dryRun || answer then Added
    else Failed(AsignarProfesor)
  }

  /** The assignment call is made for a listed persona that is neither in the staff nor planned, outside a dry run. */
  predicate CallsAssign(listing: Option<set<int>>, planned: set<int>, p: int, dryRun: bool) {
    listing.Some? && p !in listing.value && p !in planned && !dryRun
  }

  /** How the added pairs, the errors and the omitted count move for one outcome on (c, p). */
  predicate Effect(o: Outcome, c: int, p: int, added0: seq<(int, int)>, added: seq<(int, int)>,
                   errors0: seq<PlanError>, errors: seq<PlanError>, omitted0: nat, omitted: nat)
  {
    match o
    case Omitted => added == added0 && errors == errors0 && omitted == omitted0 + 1
    case Added => added == added0 + [(c, p)] && errors == errors0 && omitted == omitted0
    case Failed(k) => added == added0 && errors == errors0 + [PlanError(k, Some(p), c)] && omitted == omitted0
  }

  // ---------------------------------------------------------------- the staff as first listed

  /**
   * `listed` holds each class's staff as its listing answered: it is known
   * for exactly the cached classes and the cache holds it; whatever the
   * cache holds beyond it, and whatever is planned, was added in this run;
   * and every pair added was in a listed class, outside its listing.
   */
  ghost predicate ListedOk(listed: map<int, set<int>>, staff: map<int, set<int>>, planned: map<int, set<int>>,
                           added: seq<(int, int)>)
  {
    && listed.Keys == staff.Keys
    && (forall c :: c in listed ==> listed[c] <= staff[c])
    && (forall c, q :: Contains(staff, c, q) && !Contains(listed, c, q) ==> (c, q) in added)
    && (forall c, q :: Contains(planned, c, q) ==> (c, q) in added)
    && (forall k :: 0 <= k < |added| ==> added[k].0 in listed && added[k].1 !in listed[added[k].0])
  }

  /** A new listing is cached and recorded as listed. */
  lemma ListedFetch(listed: map<int, set<int>>, staff: map<int, set<int>>, planned: map<int, set<int>>,
                    added: seq<(int, int)>, c: int, v: set<int>)
    requires ListedOk(listed, staff, planned, added) && c !in staff
    ensures ListedOk(listed[c := v], staff[c := v], planned, added)
  {
  }

  /** Opening a class's planned set changes nothing planned. */
  lemma ListedOpen(listed: map<int, set<int>>, staff: map<int, set<int>>, planned: map<int, set<int>>,
                   added: seq<(int, int)>, c: int)
    requires ListedOk(listed, staff, planned, added)
    ensures ListedOk(listed, staff, planned[c := if c in planned then planned[c] else {}], added)
  {
  }

  /** Planning a persona outside the listed staff records the pair as added. */
  lemma ListedPlan(listed: map<int, set<int>>, staff: map<int, set<int>>, planned: map<int, set<int>>,
                   added: seq<(int, int)>, c: int, p: int)
    requires ListedOk(listed, staff, planned, added)
    requires c in staff && p !in staff[c] && c in planned
    ensures ListedOk(listed, staff, planned[c := planned[c] + {p}], added + [(c, p)])
  {
    var added' := added + [(c, p)];
    assert (c, p) == added'[|added|];
    forall k | 0 <= k < |added|
      ensures added'[k] == added[k]
    {
    }
  }

  /** Assigning a persona outside the staff adds it to the cache and records the pair as added. */
  lemma ListedAssign(listed: map<int, set<int>>, staff: map<int, set<int>>, planned: map<int, set<int>>,
                     added: seq<(int, int)>, c: int, p: int)
    requires ListedOk(listed, staff, planned, added)
    requires c in staff && p !in staff[c]
    ensures ListedOk(listed, staff[c := staff[c] + {p}], planned, added + [(c, p)])
  {
    var added' := added + [(c, p)];
    assert (c, p) == added'[|added|];
    forall k | 0 <= k < |added|
      ensures added'[k] == added[k]
    {
    }
  }

  /** A persona the staff or the planned set already holds was listed there, or added in this run. */
  lemma ListedKnown(listed: map<int, set<int>>, staff: map<int, set<int>>, planned: map<int, set<int>>,
                    added: seq<(int, int)>, c: int, p: int)
    requires ListedOk(listed, staff, planned, added)
    requires Contains(staff, c, p) || Contains(planned, c, p)
    ensures (c, p) in added || Contains(listed, c, p)
  {
  }

  /** A class's cached staff and its listing differ only by personas added in the run, so by desired ones. */
  lemma ListedTargets(listed: map<int, set<int>>, staff: map<int, set<int>>, planned: map<int, set<int>>,
                      added: seq<(int, int)>, desired: map<int, set<int>>, c: int)
    requires ListedOk(listed, staff, planned, added) && c in staff && c in desired
    requires forall k :: 0 <= k < |added| ==> Contains(desired, added[k].0, added[k].1)
    ensures staff[c] - desired[c] == listed[c] - desired[c]
  {
    forall q | q in staff[c] && q !in desired[c]
      ensures q in listed[c]
    {
      assert Contains(staff, c, q) && (Contains(listed, c, q) || (c, q) in added);
    }
  }

  // ---------------------------------------------------------------- the match-phase invariant

  /** The invariant the matches keep: each new pair once and recorded, listings cached once, the staff as listed. */
  ghost predicate MatchInv(added: seq<(int, int)>, dryRun: bool, ms: Maps, fetch: seq<(int, bool)>,
                           listed: map<int, set<int>>)
  {
    AddedOk(added, dryRun, ms) && FetchOk(fetch, ms.staff) && ListedOk(listed, ms.staff, ms.planned, added)
  }

  /** Listing a class not cached: the answer is cached and recorded as listed on success. */
  lemma MatchInvFetch(added: seq<(int, int)>, dryRun: bool, ms: Maps, fetch: seq<(int, bool)>,
                      listed: map<int, set<int>>, c: int, r: Option<set<int>>)
    requires MatchInv(added, dryRun, ms, fetch, listed) && c !in ms.staff
    ensures MatchInv(added, dryRun, ms.(staff := if r.Some? then ms.staff[c := r.value] else ms.staff),
                     fetch + [(c, r.Some?)], if r.Some? then listed[c := r.value] else listed)
  {
    FetchOkStep(fetch, ms.staff, c, r);
    if r.Some? {
      GrowsUpdate(ms.staff, c, r.value);
      ListedFetch(listed, ms.staff, ms.planned, added, c, r.value);
      AddedOkGrows(added, dryRun, ms, ms.(staff := ms.staff[c := r.value]));
    }
  }

  /** Recording a desired pair keeps the invariant. */
  lemma MatchInvDesire(added: seq<(int, int)>, dryRun: bool, ms: Maps, fetch: seq<(int, bool)>,
                       listed: map<int, set<int>>, c: int, p: int)
    requires MatchInv(added, dryRun, ms, fetch, listed)
    ensures MatchInv(added, dryRun, ms.(desired := AddPersona(ms.desired, c, p)), fetch, listed)
  {
    GrowsUpdate(ms.desired, c, (if c in ms.desired then ms.desired[c] else {}) + {p});
    AddedOkGrows(added, dryRun, ms, ms.(desired := AddPersona(ms.desired, c, p)));
  }

  /** Opening a class's planned set keeps the invariant. */
  lemma MatchInvOpen(added: seq<(int, int)>, dryRun: bool, ms: Maps, fetch: seq<(int, bool)>,
                     listed: map<int, set<int>>, c: int)
    requires MatchInv(added, dryRun, ms, fetch, listed)
    ensures MatchInv(added, dryRun, ms.(planned := ms.planned[c := if c in ms.planned then ms.planned[c] else {}]),
                     fetch, listed)
  {
    var v := if c in ms.planned then ms.planned[c] else {};
    GrowsUpdate(ms.planned, c, v);
    ListedOpen(listed, ms.staff, ms.planned, added, c);
    AddedOkGrows(added, dryRun, ms, ms.(planned := ms.planned[c := v]));
  }

  /** A dry run plans a desired persona that is neither listed nor planned: the pair is added once. */
  lemma MatchInvPlan(added: seq<(int, int)>, dryRun: bool, ms: Maps, fetch: seq<(int, bool)>,
                     listed: map<int, set<int>>, c: int, p: int)
    requires MatchInv(added, dryRun, ms, fetch, listed) && dryRun && Contains(ms.desired, c, p)
    requires c in ms.planned && p !in ms.planned[c] && c in ms.staff && p !in ms.staff[c]
    ensures MatchInv(added + [(c, p)], dryRun, ms.(planned := ms.planned[c := ms.planned[c] + {p}]), fetch, listed)
  {
    var ms' := ms.(planned := ms.planned[c := ms.planned[c] + {p}]);
    GrowsUpdate(ms.planned, c, ms.planned[c] + {p});
    ListedPlan(listed, ms.staff, ms.planned, added, c, p);
    AddedOkAppend(added, dryRun, ms, ms', c, p);
  }

  /** A successful assignment of a desired persona outside the staff: the pair is added once. */
  lemma MatchInvAssign(added: seq<(int, int)>, dryRun: bool, ms: Maps, fetch: seq<(int, bool)>,
                       listed: map<int, set<int>>, c: int, p: int)
    requires MatchInv(added, dryRun, ms, fetch, listed) && !dryRun && Contains(ms.desired, c, p)
    requires c in ms.staff && p !in ms.staff[c]
    ensures MatchInv(added + [(c, p)], dryRun, ms.(staff := ms.staff[c := ms.staff[c] + {p}]),
                     fetch, listed)
  {
    var ms' := ms.(staff := ms.staff[c := ms.staff[c] + {p}]);
    GrowsUpdate(ms.staff, c, ms.staff[c] + {p});
    ListedAssign(listed, ms.staff, ms.planned, added, c, p);
    FetchOkGrows(fetch, ms.staff, ms'.staff);
    AddedOkAppend(added, dryRun, ms, ms', c, p);
  }

  /** Growing the cache keeps every successful listing cached. */
  lemma FetchOkGrows(calls: seq<(int, bool)>, cache: map<int, set<int>>, cache': map<int, set<int>>)
    requires FetchOk(calls, cache) && cache.Keys <= cache'.Keys
    ensures FetchOk(calls, cache')
  {
  }

  // ---------------------------------------------------------------- every match dealt with

  /** The pair (c, p) was added, found already listed, or an error names it. */
  ghost predicate Handled(added: seq<(int, int)>, listed: map<int, set<int>>, errors: seq<PlanError>, c: int, p: int) {
    || (c, p) in added
    || Contains(listed, c, p)
    || PlanError(AsignarProfesor, Some(p), c) in errors
    || PlanError(ListarStaff, Some(p), c) in errors
  }

  /** Every desired pair has been dealt with. */
  ghost predicate AllHandled(desired: map<int, set<int>>, added: seq<(int, int)>, listed: map<int, set<int>>,
                             errors: seq<PlanError>)
  {
    forall c, p :: Contains(desired, c, p) ==> Handled(added, listed, errors, c, p)
  }

  /** The record only grows: the added pairs and the errors are extended, and a listed class keeps its listing. */
  ghost predicate Extends(added0: seq<(int, int)>, listed0: map<int, set<int>>, errors0: seq<PlanError>,
                          added: seq<(int, int)>, listed: map<int, set<int>>, errors: seq<PlanError>)
  {
    added0 <= added && errors0 <= errors && forall c :: c in listed0 ==> c in listed && listed[c] == listed0[c]
  }

  lemma ExtendsRefl(added: seq<(int, int)>, listed: map<int, set<int>>, errors: seq<PlanError>)
    ensures Extends(added, listed, errors, added, listed, errors)
  {
  }

  lemma ExtendsTrans(a0: seq<(int, int)>, l0: map<int, set<int>>, e0: seq<PlanError>,
                     a1: seq<(int, int)>, l1: map<int, set<int>>, e1: seq<PlanError>,
                     a2: seq<(int, int)>, l2: map<int, set<int>>, e2: seq<PlanError>)
    requires Extends(a0, l0, e0, a1, l1, e1) && Extends(a1, l1, e1, a2, l2, e2)
    ensures Extends(a0, l0, e0, a2, l2, e2)
  {
    assert a0 == a2[..|a0|] by {
      assert a2[..|a1|][..|a0|] == a2[..|a0|];
    }
    assert e0 == e2[..|e0|] by {
      assert e2[..|e1|][..|e0|] == e2[..|e0|];
    }
  }

  /** A pair dealt with stays dealt with as the record grows. */
  lemma AllHandledStable(desired: map<int, set<int>>,
                         a0: seq<(int, int)>, l0: map<int, set<int>>, e0: seq<PlanError>,
                         a: seq<(int, int)>, l: map<int, set<int>>, e: seq<PlanError>)
    requires AllHandled(desired, a0, l0, e0) && Extends(a0, l0, e0, a, l, e)
    ensures AllHandled(desired, a, l, e)
  {
    forall c, p | Contains(desired, c, p)
      ensures Handled(a, l, e, c, p)
    {
      HandledStable(a0, l0, e0, a, l, e, c, p);
    }
  }

  lemma HandledStable(a0: seq<(int, int)>, l0: map<int, set<int>>, e0: seq<PlanError>,
                      a: seq<(int, int)>, l: map<int, set<int>>, e: seq<PlanError>, c: int, p: int)
    requires Handled(a0, l0, e0, c, p) && Extends(a0, l0, e0, a, l, e)
    ensures Handled(a, l, e, c, p)
  {
    if (c, p) in a0 {
      var k :| 0 <= k < |a0| && a0[k] == (c, p);
      assert a[k] == (c, p);
    } else if PlanError(AsignarProfesor, Some(p), c) in e0 {
      var k :| 0 <= k < |e0| && e0[k] == PlanError(AsignarProfesor, Some(p), c);
      assert e[k] == e0[k];
    } else if PlanError(ListarStaff, Some(p), c) in e0 {
      var k :| 0 <= k < |e0| && e0[k] == PlanError(ListarStaff, Some(p), c);
      assert e[k] == e0[k];
    }
  }

  /**
   * Every desired pair is dealt with, except those of persona `p` in a class
   * of `rest`, the matches still to handle.
   */
  ghost predicate HandledBut(desired: map<int, set<int>>, added: seq<(int, int)>, listed: map<int, set<int>>,
                             errors: seq<PlanError>, p: int, rest: seq<Clase>)
  {
    forall c, q :: Contains(desired, c, q) ==> Handled(added, listed, errors, c, q) || (q == p && c in Ids(rest))
  }

  /** Handling the first of the remaining matches, with the record grown, narrows what is left. */
  lemma HandledButStep(desired: map<int, set<int>>,
                       a0: seq<(int, int)>, l0: map<int, set<int>>, e0: seq<PlanError>,
                       a: seq<(int, int)>, l: map<int, set<int>>, e: seq<PlanError>, p: int, rest: seq<Clase>)
    requires rest != []
    requires HandledBut(desired, a0, l0, e0, p, rest) && Extends(a0, l0, e0, a, l, e)
    requires Handled(a, l, e, rest[0].id, p)
    ensures HandledBut(desired, a, l, e, p, rest[1..])
  {
    IdsMeaning(rest);
    IdsMeaning(rest[1..]);
    forall c, q | Contains(desired, c, q) && !(q == p && c in Ids(rest[1..]))
      ensures Handled(a, l, e, c, q)
    {
      if Handled(a0, l0, e0, c, q) {
        HandledStable(a0, l0, e0, a, l, e, c, q);
      } else {
        var cl :| cl in rest && cl.id == c;
        if cl != rest[0] {
          assert cl in rest[1..];
        }
      }
    }
  }

  /** Recording the docente's matches leaves its own pairs, in those classes, to handle. */
  lemma HandledButStart(desired: map<int, set<int>>, added: seq<(int, int)>, listed: map<int, set<int>>,
                        errors: seq<PlanError>, p: int, matches: seq<Clase>)
    requires AllHandled(desired, added, listed, errors)
    ensures HandledBut(AddMatches(desired, p, matches), added, listed, errors, p, matches)
  {
    AddMatchesMeaning(desired, p, matches);
  }

  // ---------------------------------------------------------------- removals

  /** `r` lists the staff members not desired, each once, in ascending id order. */
  ghost predicate RemovalList(r: seq<int>, staff: set<int>, desired: set<int>) {
    IsSorted(r) && |r| == |staff - desired| && forall x :: x in r <==> x in staff && x !in desired
  }

  /** The pairs of class `c` with each persona of `s`, in order. */
  function ClassPairs(c: int, s: seq<int>): (r: seq<(int, int)>)
    ensures |r| == |s| && forall k :: 0 <= k < |s| ==> r[k] == (c, s[k])
  {
    seq(|s|, k requires 0 <= k < |s| => (c, s[k]))
  }

  /** The removals of `s` from class `c` that succeed when the deletion calls from number `n` on answer `ok`. */
  function Deleted(c: int, s: seq<int>, ok: (nat, int, int) -> bool, n: nat): seq<(int, int)> {
    if s == [] then []
    else Deleted(c, s[..|s| - 1], ok, n) + (if ok(n + |s| - 1, c, s[|s| - 1]) then [(c, s[|s| - 1])] else [])
  }

  /** The `eliminar_profesor` errors of the removals of `s` that fail. */
  function DeleteErrors(c: int, s: seq<int>, ok: (nat, int, int) -> bool, n: nat): seq<PlanError> {
    if s == [] then []
    else
      DeleteErrors(c, s[..|s| - 1], ok, n)
        + (if ok(n + |s| - 1, c, s[|s| - 1]) then [] else [PlanError(EliminarProfesor, Some(s[|s| - 1]), c)])
  }

  /**
   * Each persona to remove ends as exactly one removal or one error: the
   * counts add up, every removal is of a persona of the list in class `c`,
   * and every error names one.
   */
  lemma {:induction false} DeletedAccount(c: int, s: seq<int>, ok: (nat, int, int) -> bool, n: nat)
    ensures |Deleted(c, s, ok, n)| + |DeleteErrors(c, s, ok, n)| == |s|
    ensures forall k :: 0 <= k < |Deleted(c, s, ok, n)| ==> Deleted(c, s, ok, n)[k].0 == c && Deleted(c, s, ok, n)[k].1 in s
    ensures forall k :: 0 <= k < |DeleteErrors(c, s, ok, n)| ==>
              DeleteErrors(c, s, ok, n)[k].kind == EliminarProfesor && DeleteErrors(c, s, ok, n)[k].claseId == c
              && DeleteErrors(c, s, ok, n)[k].personaId.Some? && DeleteErrors(c, s, ok, n)[k].personaId.value in s
  {
    if s != [] {
      var init := s[..|s| - 1];
      DeletedAccount(c, init, ok, n);
      assert forall x :: x in init ==> x in s;
    }
  }

  lemma AppendAssoc<T>(a: seq<T>, b: seq<T>, c: seq<T>)
    ensures (a + b) + c == a + (b + c)
  {
  }

  /** One more persona to remove: the pairs, the removals and the errors each grow by its own entry. */
  lemma DeletedSnoc(c: int, s: seq<int>, ok: (nat, int, int) -> bool, n: nat, k: nat)
    requires k < |s|
    ensures ClassPairs(c, s[..k + 1]) == ClassPairs(c, s[..k]) + [(c, s[k])]
    ensures Deleted(c, s[..k + 1], ok, n) == Deleted(c, s[..k], ok, n) + (if ok(n + k, c, s[k]) then [(c, s[k])] else [])
    ensures DeleteErrors(c, s[..k + 1], ok, n)
            == DeleteErrors(c, s[..k], ok, n) + (if ok(n + k, c, s[k]) then [] else [PlanError(EliminarProfesor, Some(s[k]), c)])
  {
    assert s[..k + 1][..k] == s[..k];
  }

  /**
   * What removing the personas `s` from class `c` leaves behind, from the
   * deletion calls `d0`, removals `r0` and errors `e0`: in a dry run every
   * persona is removed without a call; otherwise each gets a deletion call,
   * numbered from `n`, and is removed or logged as its answer says.
   */
  ghost predicate RemovalTrace(dryRun: bool, c: int, s: seq<int>, ok: (nat, int, int) -> bool, n: nat,
                               d0: seq<(int, int)>, r0: seq<(int, int)>, e0: seq<PlanError>,
                               d: seq<(int, int)>, r: seq<(int, int)>, e: seq<PlanError>)
  {
    && d == d0 + (if dryRun then [] else ClassPairs(c, s))
    && r == r0 + (if dryRun then ClassPairs(c, s) else Deleted(c, s, ok, n))
    && e == e0 + (if dryRun then [] else DeleteErrors(c, s, ok, n))
  }

  lemma RemovalTraceStart(dryRun: bool, c: int, ok: (nat, int, int) -> bool, d: seq<(int, int)>,
                          r: seq<(int, int)>, e: seq<PlanError>)
    ensures RemovalTrace(dryRun, c, [], ok, |d|, d, r, e, d, r, e)
  {
    assert ClassPairs(c, []) == [];
  }

  /** One more persona handled as the deletion call numbered `|d|` answers extends the trace. */
  lemma RemovalTraceStep(dryRun: bool, c: int, s: seq<int>, ok: (nat, int, int) -> bool, n: nat, k: nat,
                         d0: seq<(int, int)>, r0: seq<(int, int)>, e0: seq<PlanError>,
                         d: seq<(int, int)>, r: seq<(int, int)>, e: seq<PlanError>,
                         d': seq<(int, int)>, r': seq<(int, int)>, e': seq<PlanError>)
    requires k < |s| && |d0| == n
    requires RemovalTrace(dryRun, c, s[..k], ok, n, d0, r0, e0, d, r, e)
    requires d' == d + (if dryRun then [] else [(c, s[k])])
    requires r' == r + (if dryRun || ok(|d|, c, s[k]) then [(c, s[k])] else [])
    requires e' == e + (if dryRun || ok(|d|, c, s[k]) then [] else [PlanError(EliminarProfesor, Some(s[k]), c)])
    ensures RemovalTrace(dryRun, c, s[..k + 1], ok, n, d0, r0, e0, d', r', e')
  {
    DeletedSnoc(c, s, ok, n, k);
    if dryRun {
      AppendAssoc(r0, ClassPairs(c, s[..k]), [(c, s[k])]);
    } else {
      assert |d| == n + k;
      AppendAssoc(d0, ClassPairs(c, s[..k]), [(c, s[k])]);
      if ok(n + k, c, s[k]) {
        AppendAssoc(r0, Deleted(c, s[..k], ok, n), [(c, s[k])]);
      } else {
        AppendAssoc(e0, DeleteErrors(c, s[..k], ok, n), [PlanError(EliminarProfesor, Some(s[k]), c)]);
      }
    }
  }

  /**
   * The removals over the classes `cs` are, once each, the pairs of a class
   * of `cs` with a persona of its listed staff that the class does not desire.
   */
  ghost predicate RemovalsAre(w: seq<(int, int)>, cs: seq<int>, desired: map<int, set<int>>, listed: map<int, set<int>>) {
    Distinct(w) && forall c, q :: (c, q) in w <==> c in cs && Contains(listed, c, q) && !Contains(desired, c, q)
  }

  /**
   * Visiting one more class `c`: its listing (if any) is the only new one, and
   * its removals are its listed personas it does not desire, in some order
   * without repeats.
   */
  lemma RemovalsStep(w: seq<(int, int)>, cs: seq<int>, desired: map<int, set<int>>,
                     listed: map<int, set<int>>, listed': map<int, set<int>>, c: int, tr: seq<int>)
    requires RemovalsAre(w, cs, desired, listed) && c !in cs && c in desired
    requires forall c' :: c' in listed ==> c' in listed' && listed'[c'] == listed[c']
    requires forall c' :: c' in listed' && c' !in listed ==> c' == c
    requires c in listed' ==> forall x :: x in tr <==> x in listed'[c] && x !in desired[c]
    requires c !in listed' ==> tr == []
    requires IsSorted(tr)
    ensures RemovalsAre(w + ClassPairs(c, tr), cs + [c], desired, listed')
  {
    var w' := w + ClassPairs(c, tr);
    forall i, j | 0 <= i < j < |w'|
      ensures w'[i] != w'[j]
    {
      if i >= |w| {
        assert w'[i] == (c, tr[i - |w|]) && w'[j] == (c, tr[j - |w|]);
      } else if j >= |w| {
        var (a, b) := w[i];
        assert (a, b) in w;
        assert a in cs;
      }
    }
    forall c', q
      ensures (c', q) in w' <==> c' in cs + [c] && Contains(listed', c', q) && !Contains(desired, c', q)
    {
      if (c', q) in w' {
        var k :| 0 <= k < |w'| && w'[k] == (c', q);
        if k >= |w| {
          assert tr[k - |w|] in tr;
        } else {
          assert w[k] in w;
        }
      }
      if c' == c && Contains(listed', c', q) && !Contains(desired, c', q) {
        var k :| 0 <= k < |tr| && tr[k] == q;
        assert w'[|w| + k] == (c, q);
      }
      if c' in cs && c' != c && Contains(listed', c', q) {
        assert Contains(listed, c', q);
      }
    }
  }

  // ---------------------------------------------------------------- run totals

  /** `docentes_sin_match`: the docentes without levels or without a matched class. */
  function Unmatched(ds: seq<Docente>, clases: seq<Clase>): (r: nat)
    ensures r <= |ds|
  {
    if ds == [] then 0
    else
      var d := ds[|ds| - 1];
      Unmatched(ds[..|ds| - 1], clases) + if |d.desired| == 0 || MatchClases(d, clases) == [] then 1 else 0
  }

  /** `clases_encontradas`: the classes matched by the docentes that have levels. */
  function Found(ds: seq<Docente>, clases: seq<Clase>): nat {
    if ds == [] then 0
    else
      var d := ds[|ds| - 1];
      Found(ds[..|ds| - 1], clases) + if |d.desired| == 0 then 0 else |MatchClases(d, clases)|
  }

  // ---------------------------------------------------------------- the run, on the docentes and the catalog

  /** Every pair some docente matched is dealt with once every desired pair is. */
  lemma HandledMatched(ds: seq<Docente>, clases: seq<Clase>, added: seq<(int, int)>, listed: map<int, set<int>>,
                       errors: seq<PlanError>)
    requires AllHandled(DesiredByClass(ds, clases), added, listed, errors)
    ensures forall c, p :: MatchedPair(ds, clases, c, p) ==> Handled(added, listed, errors, c, p)
  {
    DesiredByClassMeaning(ds, clases);
  }

  /** A pair added in the run was matched by some docente, in a listed class, outside its listing. */
  lemma AddedMatched(ds: seq<Docente>, clases: seq<Clase>, added: seq<(int, int)>, dryRun: bool, ms: Maps,
                     listed: map<int, set<int>>)
    requires AddedOk(added, dryRun, ms) && ms.desired == DesiredByClass(ds, clases)
    requires ListedOk(listed, ms.staff, ms.planned, added)
    ensures forall k :: 0 <= k < |added| ==>
              MatchedPair(ds, clases, added[k].0, added[k].1) && added[k].0 in listed && added[k].1 !in listed[added[k].0]
  {
    DesiredByClassMeaning(ds, clases);
  }

  /**
   * Removals over all desired classes, on the docentes and the catalog: once
   * each, the listed staff of a matched class that no docente matched there.
   */
  lemma RemovalsMatched(w: seq<(int, int)>, cs: seq<int>, ds: seq<Docente>, clases: seq<Clase>,
                        listed: map<int, set<int>>)
    requires RemovalsAre(w, cs, DesiredByClass(ds, clases), listed)
    requires forall c :: c in cs <==> c in DesiredByClass(ds, clases)
    ensures Distinct(w)
    ensures forall c, q :: (c, q) in w <==>
              MatchedClass(ds, clases, c) && Contains(listed, c, q) && !MatchedPair(ds, clases, c, q)
  {
    var desired := DesiredByClass(ds, clases);
    DesiredByClassMeaning(ds, clases);
    DesiredClassesMatched(ds, clases);
    forall c | MatchedClass(ds, clases, c)
      ensures c in desired
    {
      var p :| MatchedPair(ds, clases, c, p);
      assert Contains(desired, c, p);
    }
  }
}
