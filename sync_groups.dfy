/**
 * The specification side of `_group_records`
 * (santillana_format/profesores_sync.py): key sets per record, the member
 * lists a disjoint-set forest induces, and what a group holds.
 */
module SyncGroupsSpec {
  import opened Text
  import opened SyncRecords

  /** Whether record `i` has any key. */
  predicate Keyed(ks: seq<set<seq<char>>>, i: nat)
    requires i < |ks|
  {
    ks[i] != {}
  }

  /** The number of keyless rows among the first `hi`. */
  function KeylessCount(ks: seq<set<seq<char>>>, hi: nat): (n: nat)
    requires hi <= |ks|
    ensures n <= hi
  {
    if hi == 0 then 0 else KeylessCount(ks, hi - 1) + if Keyed(ks, hi - 1) then 0 else 1
  }

  /** The keyed rows among the first `hi` whose representative is `r`, in row order. */
  ghost function Members(ks: seq<set<seq<char>>>, root: seq<nat>, r: nat, hi: nat): seq<nat>
    requires hi <= |ks| == |root|
  {
    if hi == 0 then []
    else Members(ks, root, r, hi - 1) + if Keyed(ks, hi - 1) && root[hi - 1] == r then [hi - 1] else []
  }

  lemma {:induction false} MembersMeaning(ks: seq<set<seq<char>>>, root: seq<nat>, r: nat, hi: nat)
    requires hi <= |ks| == |root|
    ensures forall i :: i in Members(ks, root, r, hi) <==> 0 <= i < hi && Keyed(ks, i) && root[i] == r
    ensures IsSorted(Members(ks, root, r, hi))
  {
    if hi > 0 {
      MembersMeaning(ks, root, r, hi - 1);
      var m := Members(ks, root, r, hi - 1);
      forall i | 0 <= i < |m|
        ensures m[i] < hi - 1
      {
        assert m[i] in m;
      }
    }
  }

  /** One more record extends the member list of its own representative only. */
  lemma MembersStep(ks: seq<set<seq<char>>>, root: seq<nat>, hi: nat)
    requires hi < |ks| == |root|
    ensures forall r :: Members(ks, root, r, hi + 1)
              == Members(ks, root, r, hi) + if Keyed(ks, hi) && root[hi] == r then [hi] else []
  {
  }

  /** The total length of the member lists of the representatives in `order`. */
  function SumLens(order: seq<nat>, gm: map<nat, seq<nat>>): nat
    requires forall r :: r in order ==> r in gm
  {
    if order == [] then 0 else SumLens(order[..|order| - 1], gm) + |gm[order[|order| - 1]]|
  }

  lemma {:induction false} SumLensGrow(order: seq<nat>, gm: map<nat, seq<nat>>, r: nat, x: nat)
    requires forall q :: q in order ==> q in gm
    requires r in gm && (forall i, j :: 0 <= i < j < |order| ==> order[i] != order[j])
    ensures SumLens(order, gm[r := gm[r] + [x]]) == SumLens(order, gm) + if r in order then 1 else 0
  {
    if order != [] {
      var last := order[|order| - 1];
      assert order[..|order| - 1] + [last] == order;
      SumLensGrow(order[..|order| - 1], gm, r, x);
    }
  }

  lemma {:induction false} SumLensOther(order: seq<nat>, gm: map<nat, seq<nat>>, r: nat, v: seq<nat>)
    requires forall q :: q in order ==> q in gm
    requires r !in order
    ensures SumLens(order, gm[r := v]) == SumLens(order, gm)
  {
    if order != [] {
      SumLensOther(order[..|order| - 1], gm, r, v);
    }
  }

  /** The rows of `rs` at the given indices. */
  function Pick(rs: seq<Row>, ids: seq<nat>): (ps: seq<Row>)
    requires forall k :: 0 <= k < |ids| ==> ids[k] < |rs|
    ensures |ps| == |ids|
  {
    seq(|ids|, k requires 0 <= k < |ids| => rs[ids[k]])
  }

  /** Two typed key maps joined type by type. */
  function JoinTyped(a: map<KeyType, set<seq<char>>>, b: map<KeyType, set<seq<char>>>): map<KeyType, set<seq<char>>> {
    map t | t in a.Keys + b.Keys :: (if t in a then a[t] else {}) + (if t in b then b[t] else {})
  }

  /** Joining typed maps unites their key unions. */
  lemma JoinTypedUnion(a: map<KeyType, set<seq<char>>>, b: map<KeyType, set<seq<char>>>)
    ensures KeysUnion(JoinTyped(a, b)) == KeysUnion(a) + KeysUnion(b)
  {
    forall key
      ensures key in KeysUnion(JoinTyped(a, b)) <==> key in KeysUnion(a) || key in KeysUnion(b)
    {
      if key in KeysUnion(JoinTyped(a, b)) {
        var t :| t in JoinTyped(a, b) && key in JoinTyped(a, b)[t];
        if t in a && key in a[t] {
          assert key in KeysUnion(a);
        } else {
          assert key in KeysUnion(b);
        }
      }
      if key in KeysUnion(a) {
        var t :| t in a && key in a[t];
        assert key in JoinTyped(a, b)[t];
      }
      if key in KeysUnion(b) {
        var t :| t in b && key in b[t];
        assert key in JoinTyped(a, b)[t];
      }
    }
  }

  /** The typed keys of a group: `keys_by_type.setdefault(t, set()).update(...)` over its records. */
  function GroupKeysByType(kts: seq<map<KeyType, set<seq<char>>>>, ids: seq<nat>): map<KeyType, set<seq<char>>>
    requires forall k :: 0 <= k < |ids| ==> ids[k] < |kts|
  {
    if ids == [] then map[]
    else JoinTyped(GroupKeysByType(kts, ids[..|ids| - 1]), kts[ids[|ids| - 1]])
  }

  /** The keys of a group: `keys_union.update(...)` over its records. */
  function GroupKeys(ks: seq<set<seq<char>>>, ids: seq<nat>): set<seq<char>>
    requires forall k :: 0 <= k < |ids| ==> ids[k] < |ks|
  {
    if ids == [] then {} else GroupKeys(ks, ids[..|ids| - 1]) + ks[ids[|ids| - 1]]
  }

  /**
   * When every record's key set is the union of its typed sets, so is the
   * group's; and the group's keys are exactly its records' keys.
   */
  lemma {:induction false} GroupKeysMeaning(kts: seq<map<KeyType, set<seq<char>>>>, ks: seq<set<seq<char>>>, ids: seq<nat>)
    requires |kts| == |ks| && forall i :: 0 <= i < |ks| ==> ks[i] == KeysUnion(kts[i])
    requires forall k :: 0 <= k < |ids| ==> ids[k] < |ks|
    ensures KeysUnion(GroupKeysByType(kts, ids)) == GroupKeys(ks, ids)
    ensures forall key :: key in GroupKeys(ks, ids) <==> exists k :: 0 <= k < |ids| && key in ks[ids[k]]
  {
    if ids != [] {
      var pre := ids[..|ids| - 1];
      GroupKeysMeaning(kts, ks, pre);
      JoinTypedUnion(GroupKeysByType(kts, pre), kts[ids[|ids| - 1]]);
      forall key
        ensures key in GroupKeys(ks, ids) <==> exists k :: 0 <= k < |ids| && key in ks[ids[k]]
      {
        if key in GroupKeys(ks, pre) {
          var k :| 0 <= k < |pre| && key in ks[pre[k]];
          assert ids[k] == pre[k];
        }
        if exists k :: 0 <= k < |ids| && key in ks[ids[k]] {
          var k :| 0 <= k < |ids| && key in ks[ids[k]];
          if k < |pre| {
            assert pre[k] == ids[k];
          }
        }
      }
    }
  }

  /**
   * One group of rows as `_group_records` returns it, with the columns whose
   * conflicting values `_merge_records` reported for it.
   */
  datatype Group = Group(record: Row, keysByType: map<KeyType, set<seq<char>>>, keys: set<seq<char>>, rows: seq<nat>,
                         conflicts: set<seq<char>>)

  /** Whether 0-based row `i` belongs to the group (`rows` are 1-based). */
  predicate HasRow(g: Group, i: nat) {
    i + 1 in g.rows
  }

  /** The lists collected after the first `idx` records. */
  ghost predicate Collected(ks: seq<set<seq<char>>>, root: seq<nat>, order: seq<nat>, gm: map<nat, seq<nat>>, idx: nat)
    requires idx <= |ks| == |root|
  {
    && (forall i, j :: 0 <= i < j < |order| ==> order[i] != order[j])
    && (forall r :: r in gm <==> r in order)
    && (forall r :: r in gm ==> gm[r] == Members(ks, root, r, idx) && gm[r] != [])
    && (forall r :: r !in gm ==> Members(ks, root, r, idx) == [])
    && SumLens(order, gm) + KeylessCount(ks, idx) == idx
  }

  /** Appending keyed record `idx` to the existing list of its representative keeps the lists right. */
  lemma CollectGrow(ks: seq<set<seq<char>>>, root: seq<nat>, order: seq<nat>, gm: map<nat, seq<nat>>, idx: nat)
    requires idx < |ks| == |root| && Keyed(ks, idx) && root[idx] in gm
    requires Collected(ks, root, order, gm, idx)
    ensures Collected(ks, root, order, gm[root[idx] := gm[root[idx]] + [idx]], idx + 1)
  {
    var r := root[idx];
    var gm' := gm[r := gm[r] + [idx]];
    MembersStep(ks, root, idx);
    forall q | q in gm'
      ensures gm'[q] == Members(ks, root, q, idx + 1) && gm'[q] != []
    {
      if q != r {
        assert gm'[q] == gm[q];
      }
    }
    forall q | q !in gm'
      ensures Members(ks, root, q, idx + 1) == []
    {
      assert q !in gm && q != r;
    }
    SumLensGrow(order, gm, r, idx);
    assert KeylessCount(ks, idx + 1) == KeylessCount(ks, idx);
  }

  /** Starting a new list for keyed record `idx`, whose representative has none yet, keeps the lists right. */
  lemma CollectNew(ks: seq<set<seq<char>>>, root: seq<nat>, order: seq<nat>, gm: map<nat, seq<nat>>, idx: nat)
    requires idx < |ks| == |root| && Keyed(ks, idx) && root[idx] !in gm
    requires Collected(ks, root, order, gm, idx)
    ensures Collected(ks, root, order + [root[idx]], gm[root[idx] := [idx]], idx + 1)
  {
    var r := root[idx];
    var order', gm' := order + [r], gm[r := [idx]];
    assert r !in order;
    assert order'[..|order'| - 1] == order;
    MembersStep(ks, root, idx);
    forall q | q in gm'
      ensures gm'[q] == Members(ks, root, q, idx + 1) && gm'[q] != []
    {
      if q != r {
        assert gm'[q] == gm[q];
      }
    }
    forall q | q !in gm'
      ensures Members(ks, root, q, idx + 1) == []
    {
      assert q !in gm && q != r;
    }
    SumLensOther(order, gm, r, [idx]);
    assert KeylessCount(ks, idx + 1) == KeylessCount(ks, idx);
  }

  /**
   * `groups.setdefault(root, []).append(idx)`, with the representatives kept
   * in the order their first record appears.
   */
  function AddMember(order: seq<nat>, gm: map<nat, seq<nat>>, r: nat, idx: nat): (seq<nat>, map<nat, seq<nat>>) {
    if r in gm then (order, gm[r := gm[r] + [idx]]) else (order + [r], gm[r := [idx]])
  }

  /** Adding keyed record `idx` to the list of its representative keeps the lists right. */
  lemma CollectStep(ks: seq<set<seq<char>>>, root: seq<nat>, order: seq<nat>, gm: map<nat, seq<nat>>, idx: nat)
    requires idx < |ks| == |root| && Keyed(ks, idx)
    requires Collected(ks, root, order, gm, idx)
    ensures Collected(ks, root, AddMember(order, gm, root[idx], idx).0, AddMember(order, gm, root[idx], idx).1, idx + 1)
  {
    if root[idx] in gm {
      CollectGrow(ks, root, order, gm, idx);
    } else {
      CollectNew(ks, root, order, gm, idx);
    }
  }

  /** The lists `_group_records` has collected after the first `idx` records. */
  function Collect(ks: seq<set<seq<char>>>, root: seq<nat>, idx: nat): (seq<nat>, map<nat, seq<nat>>)
    requires idx <= |ks| == |root|
  {
    if idx == 0 then ([], map[])
    else if Keyed(ks, idx - 1) then AddMember(Collect(ks, root, idx - 1).0, Collect(ks, root, idx - 1).1, root[idx - 1], idx - 1)
    else Collect(ks, root, idx - 1)
  }

  /** The collected lists are each representative's keyed records, in order. */
  lemma {:induction false} CollectCollected(ks: seq<set<seq<char>>>, root: seq<nat>, idx: nat)
    requires idx <= |ks| == |root|
    ensures Collected(ks, root, Collect(ks, root, idx).0, Collect(ks, root, idx).1, idx)
  {
    if idx == 0 {
      MembersMeaning(ks, root, 0, 0);
      forall r ensures Members(ks, root, r, 0) == [] {
        MembersMeaning(ks, root, r, 0);
      }
    } else {
      CollectCollected(ks, root, idx - 1);
      var (order, gm) := Collect(ks, root, idx - 1);
      if Keyed(ks, idx - 1) {
        CollectStep(ks, root, order, gm, idx - 1);
      } else {
        SkipStep(ks, root, order, gm, idx - 1);
      }
    }
  }

  /** Every collected list holds record indices. */
  ghost predicate InRange(gm: map<nat, seq<nat>>, n: nat) {
    forall r, k :: r in gm && 0 <= k < |gm[r]| ==> gm[r][k] < n
  }

  lemma CollectedInRange(ks: seq<set<seq<char>>>, root: seq<nat>, order: seq<nat>, gm: map<nat, seq<nat>>)
    requires |ks| == |root| && Collected(ks, root, order, gm, |ks|)
    ensures InRange(gm, |ks|)
  {
    forall r, k | r in gm && 0 <= k < |gm[r]|
      ensures gm[r][k] < |ks|
    {
      MembersMeaning(ks, root, r, |ks|);
      assert gm[r][k] in gm[r];
    }
  }

  /** A keyless record changes no list. */
  lemma SkipStep(ks: seq<set<seq<char>>>, root: seq<nat>, order: seq<nat>, gm: map<nat, seq<nat>>, idx: nat)
    requires idx < |ks| == |root| && !Keyed(ks, idx)
    requires Collected(ks, root, order, gm, idx)
    ensures Collected(ks, root, order, gm, idx + 1)
  {
    MembersStep(ks, root, idx);
  }

  /** 1-based row numbers of 0-based indices. */
  function Shift(ids: seq<nat>): (rows: seq<nat>)
    ensures |rows| == |ids| && forall k :: 0 <= k < |ids| ==> rows[k] == ids[k] + 1
  {
    seq(|ids|, k requires 0 <= k < |ids| => ids[k] + 1)
  }

  /** The records at 1-based row numbers. */
  function RowsAt(rs: seq<Row>, rows: seq<nat>): (ps: seq<Row>)
    requires forall k :: 0 <= k < |rows| ==> 1 <= rows[k] <= |rs|
    ensures |ps| == |rows|
  {
    seq(|rows|, k requires 0 <= k < |rows| => rs[rows[k] - 1])
  }

  /** `keys_set_by_record`: the keys of every record. */
  function KeySets(rs: seq<Row>): (ks: seq<set<seq<char>>>)
    ensures |ks| == |rs|
  {
    if rs == [] then [] else KeySets(rs[..|rs| - 1]) + [AllKeys(IdentityOfRow(rs[|rs| - 1]))]
  }

  /** The key set of record `i` is that of `_build_keys`. */
  lemma {:induction false} KeySetsAt(rs: seq<Row>, i: nat)
    requires i < |rs|
    ensures KeySets(rs)[i] == AllKeys(IdentityOfRow(rs[i]))
  {
    if i < |rs| - 1 {
      KeySetsAt(rs[..|rs| - 1], i);
    }
  }

  /** `keys_by_record`: the typed keys of every record. */
  function TypedKeySets(rs: seq<Row>): (kts: seq<map<KeyType, set<seq<char>>>>)
    ensures |kts| == |rs|
  {
    if rs == [] then [] else TypedKeySets(rs[..|rs| - 1]) + [KeysByType(IdentityOfRow(rs[|rs| - 1]))]
  }

  /** The typed keys of record `i` are those of `_build_keys`. */
  lemma {:induction false} TypedKeySetsAt(rs: seq<Row>, i: nat)
    requires i < |rs|
    ensures TypedKeySets(rs)[i] == KeysByType(IdentityOfRow(rs[i]))
  {
    if i < |rs| - 1 {
      TypedKeySetsAt(rs[..|rs| - 1], i);
    }
  }

  /**
   * A group's record is the merge of its rows (`_merge_records`) and its
   * conflicting columns those of the same rows.
   */
  ghost predicate MergedGroup(rs: seq<Row>, cols: seq<seq<char>>, g: Group)
  {
    && (forall k :: 0 <= k < |g.rows| ==> 1 <= g.rows[k] <= |rs|)
    && g.record == Merged(RowsAt(rs, g.rows), cols)
    && g.conflicts == ConflictColumns(RowsAt(rs, g.rows), cols)
  }

  /**
   * The group built from the records at `ids` (0-based), with its
   * conflicting columns: the merge of those records, their typed keys and
   * key union, and their 1-based row numbers.
   */
  function GroupFor(rs: seq<Row>, cols: seq<seq<char>>, ids: seq<nat>): Group
    requires forall k :: 0 <= k < |ids| ==> ids[k] < |rs|
  {
    var ps := Pick(rs, ids);
    Group(Merged(ps, cols), GroupKeysByType(TypedKeySets(rs), ids), GroupKeys(KeySets(rs), ids), Shift(ids),
          ConflictColumns(ps, cols))
  }

  /** A built group's record is the merge of the records its row numbers name. */
  lemma GroupForMerged(rs: seq<Row>, cols: seq<seq<char>>, ids: seq<nat>)
    requires forall k :: 0 <= k < |ids| ==> ids[k] < |rs|
    ensures MergedGroup(rs, cols, GroupFor(rs, cols, ids))
  {
    RowsAtShift(rs, ids);
  }

  /** What the collected lists say about the groups built from them. */
  lemma GroupsPartition(ks: seq<set<seq<char>>>, root: seq<nat>, order: seq<nat>, gm: map<nat, seq<nat>>, groups: seq<Group>)
    requires |ks| == |root| && Collected(ks, root, order, gm, |ks|)
    requires |groups| == |order| && forall g :: 0 <= g < |groups| ==> groups[g].rows == Shift(gm[order[g]])
    ensures forall g, i :: 0 <= g < |groups| && 0 <= i < |ks| ==> (HasRow(groups[g], i) <==> Keyed(ks, i) && root[i] == order[g])
    ensures forall g, k :: 0 <= g < |groups| && 0 <= k < |groups[g].rows| ==>
              1 <= groups[g].rows[k] <= |ks| && Keyed(ks, groups[g].rows[k] - 1)
    ensures forall g :: 0 <= g < |groups| ==> groups[g].rows != [] && IsSorted(groups[g].rows)
    ensures forall i :: 0 <= i < |ks| && Keyed(ks, i) ==> exists g :: 0 <= g < |groups| && HasRow(groups[g], i)
  {
    forall g | 0 <= g < |groups|
      ensures forall i :: 0 <= i < |ks| ==> (HasRow(groups[g], i) <==> Keyed(ks, i) && root[i] == order[g])
      ensures forall k :: 0 <= k < |groups[g].rows| ==> 1 <= groups[g].rows[k] <= |ks| && Keyed(ks, groups[g].rows[k] - 1)
      ensures groups[g].rows != [] && IsSorted(groups[g].rows)
    {
      GroupRows(ks, root, order[g], gm[order[g]], groups[g]);
    }
    forall i | 0 <= i < |ks| && Keyed(ks, i)
      ensures exists g :: 0 <= g < |groups| && HasRow(groups[g], i)
    {
      MembersMeaning(ks, root, root[i], |ks|);
      assert i in Members(ks, root, root[i], |ks|);
      var g :| 0 <= g < |order| && order[g] == root[i];
      GroupRows(ks, root, order[g], gm[order[g]], groups[g]);
      assert HasRow(groups[g], i);
    }
  }

  /** The rows of the group of representative `r`. */
  lemma GroupRows(ks: seq<set<seq<char>>>, root: seq<nat>, r: nat, ids: seq<nat>, grp: Group)
    requires |ks| == |root| && ids == Members(ks, root, r, |ks|) && ids != [] && grp.rows == Shift(ids)
    ensures forall i :: 0 <= i < |ks| ==> (HasRow(grp, i) <==> Keyed(ks, i) && root[i] == r)
    ensures forall k :: 0 <= k < |grp.rows| ==> 1 <= grp.rows[k] <= |ks| && Keyed(ks, grp.rows[k] - 1)
    ensures grp.rows != [] && IsSorted(grp.rows)
  {
    MembersMeaning(ks, root, r, |ks|);
    forall i | 0 <= i < |ks|
      ensures HasRow(grp, i) <==> i in ids
    {
      if HasRow(grp, i) {
        var k :| 0 <= k < |grp.rows| && grp.rows[k] == i + 1;
        assert ids[k] == i;
      }
      if i in ids {
        var k :| 0 <= k < |ids| && ids[k] == i;
        assert grp.rows[k] == i + 1;
      }
    }
    forall k | 0 <= k < |grp.rows|
      ensures 1 <= grp.rows[k] <= |ks| && Keyed(ks, grp.rows[k] - 1)
    {
      assert ids[k] in ids;
    }
  }

  /** `duplicates_count` over the groups built so far. */
  lemma SumLensPrefix(order: seq<nat>, gm: map<nat, seq<nat>>, g: nat)
    requires forall r :: r in order ==> r in gm
    requires g < |order|
    ensures SumLens(order[..g + 1], gm) == SumLens(order[..g], gm) + |gm[order[g]]|
  {
    assert order[..g + 1][..g] == order[..g];
  }

  /** Picking rows by index is reading them by 1-based row number. */
  lemma RowsAtShift(rs: seq<Row>, ids: seq<nat>)
    requires forall k :: 0 <= k < |ids| ==> ids[k] < |rs|
    ensures RowsAt(rs, Shift(ids)) == Pick(rs, ids)
  {
  }

  /** Records sharing a key are in the same groups. */
  ghost predicate KeyClosed(ks: seq<set<seq<char>>>, groups: seq<Group>)
  {
    forall i, j, key, g :: 0 <= i < |ks| && 0 <= j < |ks| && key in ks[i] && key in ks[j] &&
      0 <= g < |groups| && HasRow(groups[g], i)
      ==> HasRow(groups[g], j)
  }

  /** `p` walks from record to record, each step between two records that share a key. */
  ghost predicate KeyPath(ks: seq<set<seq<char>>>, p: seq<nat>) {
    && p != []
    && (forall k :: 0 <= k < |p| ==> p[k] < |ks|)
    && (forall k :: 0 <= k < |p| - 1 ==> ks[p[k]] * ks[p[k + 1]] != {})
  }

  /** Records `i` and `j` are joined by a chain of records, each sharing a key with the next. */
  ghost predicate Linked(ks: seq<set<seq<char>>>, i: nat, j: nat) {
    exists p :: KeyPath(ks, p) && p[0] == i && p[|p| - 1] == j
  }

  /** A record is linked to itself. */
  lemma LinkedRefl(ks: seq<set<seq<char>>>, i: nat)
    requires i < |ks|
    ensures Linked(ks, i, i)
  {
    assert KeyPath(ks, [i]);
  }

  /** Two records sharing a key are linked. */
  lemma LinkedShare(ks: seq<set<seq<char>>>, i: nat, j: nat, key: seq<char>)
    requires i < |ks| && j < |ks| && key in ks[i] && key in ks[j]
    ensures Linked(ks, i, j)
  {
    var p := [i, j];
    assert key in ks[p[0]] * ks[p[1]];
    assert KeyPath(ks, p);
  }

  /** Chains join end to end. */
  lemma LinkedTrans(ks: seq<set<seq<char>>>, i: nat, j: nat, l: nat)
    requires Linked(ks, i, j) && Linked(ks, j, l)
    ensures Linked(ks, i, l)
  {
    var p :| KeyPath(ks, p) && p[0] == i && p[|p| - 1] == j;
    var q :| KeyPath(ks, q) && q[0] == j && q[|q| - 1] == l;
    var r := p + q[1..];
    forall k | 0 <= k < |r| - 1
      ensures ks[r[k]] * ks[r[k + 1]] != {}
    {
      if k < |p| - 1 {
        assert r[k] == p[k] && r[k + 1] == p[k + 1];
      } else if k == |p| - 1 {
        assert r[k] == q[0] && r[k + 1] == q[1];
      } else {
        assert r[k] == q[k - |p| + 1] && r[k + 1] == q[k - |p| + 2];
      }
    }
    assert KeyPath(ks, r);
    assert r[|r| - 1] == l;
  }

  /**
   * Joining the trees of two records that share a key keeps every pair of
   * records with one root linked by a chain of shared keys.
   */
  lemma UnionLinked(ks: seq<set<seq<char>>>, root: seq<nat>, root': seq<nat>, a: nat, b: nat, key: seq<char>)
    requires |root| == |root'| == |ks| && a < |ks| && b < |ks| && key in ks[a] && key in ks[b]
    requires forall i, j :: 0 <= i < |ks| && 0 <= j < |ks| && root[i] == root[j] ==> Linked(ks, i, j)
    requires root'[a] == root[a] || root'[a] == root[b]
    requires forall x :: 0 <= x < |ks| ==>
               root'[x] == if root[x] == root[a] || root[x] == root[b] then root'[a] else root[x]
    ensures forall i, j :: 0 <= i < |ks| && 0 <= j < |ks| && root'[i] == root'[j] ==> Linked(ks, i, j)
  {
    forall i, j | 0 <= i < |ks| && 0 <= j < |ks| && root'[i] == root'[j]
      ensures Linked(ks, i, j)
    {
      if root[i] != root[j] {
        LinkedShare(ks, a, b, key);
        LinkedShare(ks, b, a, key);
        if root[i] == root[a] {
          LinkedTrans(ks, i, a, b);
          LinkedTrans(ks, i, b, j);
        } else {
          LinkedTrans(ks, i, b, a);
          LinkedTrans(ks, i, a, j);
        }
      }
    }
  }

  /** Records of one group share its root, hence are linked. */
  lemma GroupsLinked(ks: seq<set<seq<char>>>, root: seq<nat>, order: seq<nat>, groups: seq<Group>)
    requires |ks| == |root| && |groups| == |order|
    requires forall g, i :: 0 <= g < |groups| && 0 <= i < |ks| ==> (HasRow(groups[g], i) <==> Keyed(ks, i) && root[i] == order[g])
    requires forall g, k :: 0 <= g < |groups| && 0 <= k < |groups[g].rows| ==> 1 <= groups[g].rows[k] <= |ks|
    requires forall i, j :: 0 <= i < |ks| && 0 <= j < |ks| && root[i] == root[j] ==> Linked(ks, i, j)
    ensures forall g, i, j :: 0 <= g < |groups| && HasRow(groups[g], i) && HasRow(groups[g], j) ==> Linked(ks, i, j)
  {
    forall g, i: nat, j: nat | 0 <= g < |groups| && HasRow(groups[g], i) && HasRow(groups[g], j)
      ensures Linked(ks, i, j)
    {
      var k :| 0 <= k < |groups[g].rows| && groups[g].rows[k] == i + 1;
      var m :| 0 <= m < |groups[g].rows| && groups[g].rows[m] == j + 1;
      assert root[i] == order[g] == root[j];
    }
  }

  /** The partition facts `GroupRecords` promises, from those of its passes. */
  lemma GroupsFacts(ks: seq<set<seq<char>>>, root: seq<nat>, order: seq<nat>, gm: map<nat, seq<nat>>, groups: seq<Group>)
    requires |ks| == |root|
    requires Collected(ks, root, order, gm, |ks|)
    requires forall i, j, key :: 0 <= i < |ks| && 0 <= j < |ks| && key in ks[i] && key in ks[j] ==> root[i] == root[j]
    requires |groups| == |order| && forall g :: 0 <= g < |groups| ==> groups[g].rows == Shift(gm[order[g]])
    ensures forall g, k :: 0 <= g < |groups| && 0 <= k < |groups[g].rows| ==>
              1 <= groups[g].rows[k] <= |ks| && Keyed(ks, groups[g].rows[k] - 1)
    ensures forall g :: 0 <= g < |groups| ==> groups[g].rows != [] && IsSorted(groups[g].rows)
    ensures forall i :: 0 <= i < |ks| && Keyed(ks, i) ==> exists g :: 0 <= g < |groups| && HasRow(groups[g], i)
    ensures forall g, h, i :: 0 <= g < |groups| && 0 <= h < |groups| && HasRow(groups[g], i) && HasRow(groups[h], i) ==> g == h
    ensures KeyClosed(ks, groups)
  {
    GroupsPartition(ks, root, order, gm, groups);
    GroupsDisjoint(ks, root, order, groups);
    SharedKeySameGroup(ks, root, order, groups);
  }

  /** Distinct representatives make the groups disjoint. */
  lemma GroupsDisjoint(ks: seq<set<seq<char>>>, root: seq<nat>, order: seq<nat>, groups: seq<Group>)
    requires |ks| == |root| && |groups| == |order|
    requires forall i, j :: 0 <= i < j < |order| ==> order[i] != order[j]
    requires forall g, i :: 0 <= g < |groups| && 0 <= i < |ks| ==> (HasRow(groups[g], i) <==> Keyed(ks, i) && root[i] == order[g])
    requires forall g, k :: 0 <= g < |groups| && 0 <= k < |groups[g].rows| ==> 1 <= groups[g].rows[k] <= |ks|
    ensures forall g, h, i :: 0 <= g < |groups| && 0 <= h < |groups| && HasRow(groups[g], i) && HasRow(groups[h], i) ==> g == h
  {
    forall g, h, i: nat | 0 <= g < |groups| && 0 <= h < |groups| && HasRow(groups[g], i) && HasRow(groups[h], i)
      ensures g == h
    {
      var k :| 0 <= k < |groups[g].rows| && groups[g].rows[k] == i + 1;
      assert i < |ks|;
      assert root[i] == order[g] && root[i] == order[h];
    }
  }

  /** Records sharing a key share a representative, hence a group. */
  lemma SharedKeySameGroup(ks: seq<set<seq<char>>>, root: seq<nat>, order: seq<nat>, groups: seq<Group>)
    requires |ks| == |root| && |groups| == |order|
    requires forall i, j, key :: 0 <= i < |ks| && 0 <= j < |ks| && key in ks[i] && key in ks[j] ==> root[i] == root[j]
    requires forall g, i :: 0 <= g < |groups| && 0 <= i < |ks| ==> (HasRow(groups[g], i) <==> Keyed(ks, i) && root[i] == order[g])
    ensures forall i, j, key, g :: 0 <= i < |ks| && 0 <= j < |ks| && key in ks[i] && key in ks[j] &&
              0 <= g < |groups| && HasRow(groups[g], i)
              ==> HasRow(groups[g], j)
  {
    forall i, j, key, g | 0 <= i < |ks| && 0 <= j < |ks| && key in ks[i] && key in ks[j] &&
                          0 <= g < |groups| && HasRow(groups[g], i)
      ensures HasRow(groups[g], j)
    {
      assert root[i] == root[j];
      assert Keyed(ks, j);
    }
  }

  /** The groups built from the collected lists, one per representative in `order`. */
  function BuiltGroups(rs: seq<Row>, cols: seq<seq<char>>, order: seq<nat>, gm: map<nat, seq<nat>>): (gs: seq<Group>)
    requires InRange(gm, |rs|) && forall r :: r in order ==> r in gm
    ensures |gs| == |order|
  {
    if order == [] then []
    else BuiltGroups(rs, cols, order[..|order| - 1], gm) + [GroupFor(rs, cols, gm[order[|order| - 1]])]
  }

  /** One more representative adds its group at the end. */
  lemma BuiltGroupsPrefix(rs: seq<Row>, cols: seq<seq<char>>, order: seq<nat>, gm: map<nat, seq<nat>>, g: nat)
    requires InRange(gm, |rs|) && forall r :: r in order ==> r in gm
    requires g < |order|
    ensures BuiltGroups(rs, cols, order[..g + 1], gm) == BuiltGroups(rs, cols, order[..g], gm) + [GroupFor(rs, cols, gm[order[g]])]
  {
    assert order[..g + 1][..g] == order[..g];
  }

  lemma {:induction false} BuiltGroupsAt(rs: seq<Row>, cols: seq<seq<char>>, order: seq<nat>, gm: map<nat, seq<nat>>, g: nat)
    requires InRange(gm, |rs|) && forall r :: r in order ==> r in gm
    requires g < |order|
    ensures BuiltGroups(rs, cols, order, gm)[g] == GroupFor(rs, cols, gm[order[g]])
  {
    if g < |order| - 1 {
      var pre := order[..|order| - 1];
      BuiltGroupsAt(rs, cols, pre, gm, g);
    }
  }

  /** Group counts and merged records, from the collected lists and the groups built from them. */
  lemma GroupsMerged(rs: seq<Row>, cols: seq<seq<char>>, root: seq<nat>, order: seq<nat>, gm: map<nat, seq<nat>>,
                     groups: seq<Group>, missing: nat, duplicates: nat)
    requires |root| == |rs| && missing == KeylessCount(KeySets(rs), |rs|)
    requires Collected(KeySets(rs), root, order, gm, |rs|) && InRange(gm, |rs|)
    requires duplicates + |order| == SumLens(order, gm)
    requires groups == BuiltGroups(rs, cols, order, gm)
    ensures |groups| + duplicates + missing == |rs|
    ensures forall g :: 0 <= g < |groups| ==> groups[g].rows == Shift(gm[order[g]])
    ensures forall g :: 0 <= g < |groups| ==> MergedGroup(rs, cols, groups[g])
  {
    forall g | 0 <= g < |groups|
      ensures groups[g].rows == Shift(gm[order[g]]) && MergedGroup(rs, cols, groups[g])
    {
      BuiltGroupsAt(rs, cols, order, gm, g);
      GroupForMerged(rs, cols, gm[order[g]]);
    }
  }
}

/**
 * `_group_records` (santillana_format/profesores_sync.py): the rows of the
 * teacher file that share any identity key are joined with a disjoint-set
 * forest, keyless rows are only counted, and every group is merged into one
 * record with the union of its keys.
 */
module SyncGroups {
  import opened Text
  import opened SyncRecords
  import opened SyncGroupsSpec
  import UF = UnionFind

  /**
   * The key registration pass: each keyed row is joined with the first row
   * that registered each of its keys; unregistered keys point to it. Keyless
   * rows are counted.
   */
  method RegisterKeys(uf: UF.UnionFind, ks: seq<set<seq<char>>>) returns (missing: nat)
    requires uf.Valid() && uf.n == |ks|
    requires forall x :: 0 <= x < |ks| ==> uf.root[x] == x
    modifies uf.parent, uf.rank, uf`root, uf`bound
    ensures uf.Valid()
    ensures missing == KeylessCount(ks, |ks|)
    ensures forall i, j, key :: 0 <= i < |ks| && 0 <= j < |ks| && key in ks[i] && key in ks[j] ==>
              uf.root[i] == uf.root[j]
    ensures forall i, j :: 0 <= i < |ks| && 0 <= j < |ks| && uf.root[i] == uf.root[j] ==> Linked(ks, i, j)
  {
    var keyIndex: map<seq<char>, nat> := map[];
    missing := 0;
    forall i, j | 0 <= i < |ks| && 0 <= j < |ks| && uf.root[i] == uf.root[j]
      ensures Linked(ks, i, j)
    {
      LinkedRefl(ks, i);
    }
    for idx := 0 to |ks|
      invariant uf.Valid()
      invariant forall i, j :: 0 <= i < |ks| && 0 <= j < |ks| && uf.root[i] == uf.root[j] ==> Linked(ks, i, j)
      invariant missing == KeylessCount(ks, idx)
      invariant forall key :: key in keyIndex ==> keyIndex[key] < idx && key in ks[keyIndex[key]]
      invariant forall j, key :: 0 <= j < idx && key in ks[j] ==>
                  key in keyIndex && uf.root[j] == uf.root[keyIndex[key]]
    {
      var keys := ks[idx];
      if keys == {} {
        missing := missing + 1;
        continue;
      }
      var remaining := keys;
      while remaining != {}
        invariant uf.Valid() && remaining <= keys
        invariant forall i, j :: 0 <= i < |ks| && 0 <= j < |ks| && uf.root[i] == uf.root[j] ==> Linked(ks, i, j)
        invariant forall key :: key in keyIndex ==> keyIndex[key] <= idx && key in ks[keyIndex[key]]
        invariant forall j, key :: 0 <= j < idx && key in ks[j] ==>
                    key in keyIndex && uf.root[j] == uf.root[keyIndex[key]]
        invariant forall key :: key in keys - remaining ==> key in keyIndex && uf.root[idx] == uf.root[keyIndex[key]]
        decreases |remaining|
      {
        var key :| key in remaining;
        if key in keyIndex {
          ghost var before := uf.root;
          uf.Union(idx, keyIndex[key]);
          UnionLinked(ks, before, uf.root, idx, keyIndex[key], key);
        } else {
          keyIndex := keyIndex[key := idx];
        }
        remaining := remaining - {key};
      }
    }
    forall i, j, key | 0 <= i < |ks| && 0 <= j < |ks| && key in ks[i] && key in ks[j]
      ensures uf.root[i] == uf.root[j]
    {
      assert uf.root[i] == uf.root[keyIndex[key]];
    }
  }

  /**
   * The collection pass: each keyed row, in order, is appended to the list of
   * its representative; representatives are listed in order of first row.
   */
  method CollectGroups(uf: UF.UnionFind, ks: seq<set<seq<char>>>) returns (order: seq<nat>, gm: map<nat, seq<nat>>)
    requires uf.Valid() && uf.n == |ks|
    modifies uf.parent
    ensures uf.Valid() && uf.root == old(uf.root)
    ensures (order, gm) == Collect(ks, uf.root, |ks|)
  {
    order, gm := [], map[];
    for idx := 0 to |ks|
      invariant uf.Valid() && uf.root == old(uf.root)
      invariant (order, gm) == Collect(ks, uf.root, idx)
    {
      if Keyed(ks, idx) {
        var r := uf.Find(idx);
        order, gm := AddMember(order, gm, r, idx).0, AddMember(order, gm, r, idx).1;
      }
    }
  }

  /** One group: its merged record, its typed keys and their union, its row numbers. */
  method BuildGroup(rs: seq<Row>, cols: seq<seq<char>>, ids: seq<nat>) returns (g: Group)
    requires Distinct(cols)
    requires forall k :: 0 <= k < |ids| ==> ids[k] < |rs|
    ensures g == GroupFor(rs, cols, ids)
  {
    var merged, conflicts := MergeRecords(Pick(rs, ids), cols);
    var kts, ks := TypedKeySets(rs), KeySets(rs);
    var keysByType: map<KeyType, set<seq<char>>> := map[];
    var keysUnion: set<seq<char>> := {};
    for k := 0 to |ids|
      invariant keysByType == GroupKeysByType(kts, ids[..k])
      invariant keysUnion == GroupKeys(ks, ids[..k])
    {
      assert ids[..k + 1][..k] == ids[..k];
      keysByType := JoinTyped(keysByType, kts[ids[k]]);
      keysUnion := keysUnion + ks[ids[k]];
    }
    assert ids[..|ids|] == ids;
    g := Group(merged, keysByType, keysUnion, Shift(ids), conflicts);
  }

  /**
   * `_group_records`: records sharing any key end in the same group, every
   * keyed record is in exactly one group (groups hold row numbers in
   * ascending order), keyless records are counted in `missing` and belong to
   * no group, `duplicates` is the number of keyed records minus the number of
   * groups, and each group's record, typed keys and key union are those of
   * its records.
   */
  method GroupRecords(rs: seq<Row>, cols: seq<seq<char>>)
    returns (groups: seq<Group>, missing: nat, duplicates: nat)
    requires Distinct(cols)
    ensures missing == KeylessCount(KeySets(rs), |rs|)
    ensures |groups| + duplicates + missing == |rs|
    ensures forall g, k :: 0 <= g < |groups| && 0 <= k < |groups[g].rows| ==>
              1 <= groups[g].rows[k] <= |rs| && Keyed(KeySets(rs), groups[g].rows[k] - 1)
    ensures forall g :: 0 <= g < |groups| ==> groups[g].rows != [] && IsSorted(groups[g].rows)
    ensures forall g :: 0 <= g < |groups| ==> MergedGroup(rs, cols, groups[g])
    ensures forall i :: 0 <= i < |rs| && Keyed(KeySets(rs), i) ==> exists g :: 0 <= g < |groups| && HasRow(groups[g], i)
    ensures forall g, h, i :: 0 <= g < |groups| && 0 <= h < |groups| && HasRow(groups[g], i) && HasRow(groups[h], i) ==> g == h
    ensures KeyClosed(KeySets(rs), groups)
    ensures forall g, i, j :: 0 <= g < |groups| && HasRow(groups[g], i) && HasRow(groups[g], j) ==> Linked(KeySets(rs), i, j)
  {
    var ks := KeySets(rs);
    var order, gm;
    ghost var root;
    missing, order, gm, root := Forest(ks);
    groups, duplicates := BuildGroups(rs, cols, order, gm);
    GroupsMerged(rs, cols, root, order, gm, groups, missing, duplicates);
    GroupsFacts(ks, root, order, gm, groups);
    GroupsPartition(ks, root, order, gm, groups);
    GroupsLinked(ks, root, order, groups);
  }

  /**
   * The two passes over the disjoint-set forest: key registration and
   * collection of each representative's records.
   */
  method Forest(ks: seq<set<seq<char>>>) returns (missing: nat, order: seq<nat>, gm: map<nat, seq<nat>>, ghost root: seq<nat>)
    ensures |root| == |ks| && missing == KeylessCount(ks, |ks|)
    ensures Collected(ks, root, order, gm, |ks|) && InRange(gm, |ks|)
    ensures forall i, j, key :: 0 <= i < |ks| && 0 <= j < |ks| && key in ks[i] && key in ks[j] ==> root[i] == root[j]
    ensures forall i, j :: 0 <= i < |ks| && 0 <= j < |ks| && root[i] == root[j] ==> Linked(ks, i, j)
  {
    var uf := new UF.UnionFind(|ks|);
    missing := RegisterKeys(uf, ks);
    order, gm := CollectGroups(uf, ks);
    root := uf.root;
    CollectCollected(ks, root, |ks|);
    CollectedInRange(ks, root, order, gm);
  }

  /** The closing loop of `_group_records`: one merged group per collected list, and the duplicate count. */
  method BuildGroups(rs: seq<Row>, cols: seq<seq<char>>, order: seq<nat>, gm: map<nat, seq<nat>>)
    returns (groups: seq<Group>, duplicates: nat)
    requires Distinct(cols) && InRange(gm, |rs|)
    requires forall r :: r in order ==> r in gm && gm[r] != []
    ensures groups == BuiltGroups(rs, cols, order, gm)
    ensures duplicates + |order| == SumLens(order, gm)
  {
    groups, duplicates := [], 0;
    for g := 0 to |order|
      invariant groups == BuiltGroups(rs, cols, order[..g], gm)
      invariant duplicates + g == SumLens(order[..g], gm)
    {
      var ids := gm[order[g]];
      if |ids| > 1 {
        duplicates := duplicates + |ids| - 1;
      }
      SumLensPrefix(order, gm, g);
      BuiltGroupsPrefix(rs, cols, order, gm, g);
      var grp := BuildGroup(rs, cols, ids);
      groups := groups + [grp];
    }
    assert order[..|order|] == order;
  }
}
