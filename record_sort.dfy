/**
 * The multi-column `sort_values` the export tables end with: records are
 * ordered by a key of numbers compared column by column, all ascending.
 */
module RecordSort {

  /** `a` sorts before or together with `b`: the first column that differs is smaller in `a`. */
  predicate LexLe(a: seq<nat>, b: seq<nat>) {
    a == [] || (b != [] && (a[0] < b[0] || (a[0] == b[0] && LexLe(a[1..], b[1..]))))
  }

  lemma {:induction false} LexLeTotal(a: seq<nat>, b: seq<nat>)
    requires |a| == |b|
    ensures LexLe(a, b) || LexLe(b, a)
  {
    if a != [] && a[0] == b[0] {
      LexLeTotal(a[1..], b[1..]);
    }
  }

  lemma {:induction false} LexLeTrans(a: seq<nat>, b: seq<nat>, c: seq<nat>)
    requires |a| == |b| == |c|
    requires LexLe(a, b) && LexLe(b, c)
    ensures LexLe(a, c)
  {
    if a != [] && a[0] == b[0] == c[0] {
      LexLeTrans(a[1..], b[1..], c[1..]);
    }
  }

  /** Every key has the same number of columns. */
  ghost predicate KeyWidth<T(!new)>(key: T -> seq<nat>, w: nat) {
    forall x :: |key(x)| == w
  }

  predicate Sorted<T>(s: seq<T>, key: T -> seq<nat>) {
    forall i, j :: 0 <= i < j < |s| ==> LexLe(key(s[i]), key(s[j]))
  }

  /** `x` placed before the first element it sorts before or with. */
  function Insert<T>(x: T, s: seq<T>, key: T -> seq<nat>): (r: seq<T>)
    ensures |r| == |s| + 1
  {
    if s == [] then [x]
    else if LexLe(key(x), key(s[0])) then [x] + s
    else [s[0]] + Insert(x, s[1..], key)
  }

  /** The records in key order; an earlier record is placed before a later one with the same key. */
  function Sort<T>(s: seq<T>, key: T -> seq<nat>): (r: seq<T>)
    ensures |r| == |s|
  {
    if s == [] then [] else Insert(s[0], Sort(s[1..], key), key)
  }

  lemma {:induction false} InsertPermutes<T>(x: T, s: seq<T>, key: T -> seq<nat>)
    ensures multiset(Insert(x, s, key)) == multiset(s) + multiset{x}
  {
    if s != [] && !LexLe(key(x), key(s[0])) {
      InsertPermutes(x, s[1..], key);
      assert s == [s[0]] + s[1..];
    }
  }

  lemma {:induction false} InsertSorted<T(!new)>(x: T, s: seq<T>, key: T -> seq<nat>, w: nat)
    requires KeyWidth(key, w) && Sorted(s, key)
    ensures Sorted(Insert(x, s, key), key)
  {
    if s != [] {
      if LexLe(key(x), key(s[0])) {
        var r := [x] + s;
        forall i, j | 0 <= i < j < |r|
          ensures LexLe(key(r[i]), key(r[j]))
        {
          if i == 0 && j > 1 {
            LexLeTrans(key(x), key(s[0]), key(s[j - 1]));
          }
        }
      } else {
        LexLeTotal(key(x), key(s[0]));
        InsertSorted(x, s[1..], key, w);
        InsertPermutes(x, s[1..], key);
        var t := Insert(x, s[1..], key);
        var r := [s[0]] + t;
        forall i, j | 0 <= i < j < |r|
          ensures LexLe(key(r[i]), key(r[j]))
        {
          if i == 0 {
            assert t[j - 1] in multiset(t);
            assert t[j - 1] == x || t[j - 1] in multiset(s[1..]);
            if t[j - 1] != x {
              var k :| 0 <= k < |s[1..]| && s[1..][k] == t[j - 1];
              assert s[k + 1] == t[j - 1];
            }
          }
        }
      }
    }
  }

  /** The sort puts the records in key order. */
  lemma {:induction false} SortSorted<T(!new)>(s: seq<T>, key: T -> seq<nat>, w: nat)
    requires KeyWidth(key, w)
    ensures Sorted(Sort(s, key), key)
  {
    if s != [] {
      SortSorted(s[1..], key, w);
      InsertSorted(s[0], Sort(s[1..], key), key, w);
    }
  }

  /** The sort keeps every record, as many times as it occurs. */
  lemma {:induction false} SortPermutes<T>(s: seq<T>, key: T -> seq<nat>)
    ensures multiset(Sort(s, key)) == multiset(s)
  {
    if s != [] {
      SortPermutes(s[1..], key);
      InsertPermutes(s[0], Sort(s[1..], key), key);
      assert s == [s[0]] + s[1..];
    }
  }
}
