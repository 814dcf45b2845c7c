/**
 * The shape of a disjoint-set forest, stated on plain sequences: `parent`
 * links, `rank`s, and the representative `root` of every element.
 */
module Forest {

  /**
   * Element `x` of the forest: its parent link stays in range and keeps its
   * representative, representatives are their own parents, and ranks grow
   * strictly along every link (which bounds every walk up the forest).
   */
  ghost predicate NodeOk(parent: seq<nat>, rank: seq<nat>, root: seq<nat>, bound: nat, x: nat)
    requires |parent| == |rank| == |root| && x < |parent|
  {
    && parent[x] < |parent| && root[x] < |parent|
    && parent[root[x]] == root[x]
    && root[parent[x]] == root[x]
    && (parent[x] == x ==> root[x] == x)
    && (parent[x] != x ==> rank[x] < rank[parent[x]])
    && rank[x] <= bound
  }

  /** Every element of the forest is in shape. */
  ghost predicate ForestOk(parent: seq<nat>, rank: seq<nat>, root: seq<nat>, bound: nat) {
    && |parent| == |rank| == |root|
    && forall x :: 0 <= x < |parent| ==> NodeOk(parent, rank, root, bound, x)
  }

  /** `roots` with every element of class `from` moved to class `to`. */
  ghost function Relink(roots: seq<nat>, from: nat, to: nat): (r: seq<nat>)
    ensures |r| == |roots|
    ensures forall x :: 0 <= x < |r| ==> r[x] == if roots[x] == from then to else roots[x]
  {
    seq(|roots|, i requires 0 <= i < |roots| => if roots[i] == from then to else roots[i])
  }

  /** Every element alone. */
  lemma SingletonsOk(parent: seq<nat>, rank: seq<nat>)
    requires |parent| == |rank|
    requires forall x :: 0 <= x < |parent| ==> parent[x] == x && rank[x] == 0
    ensures ForestOk(parent, rank, parent, 0)
  {
    forall x | 0 <= x < |parent|
      ensures NodeOk(parent, rank, parent, 0, x)
    {
    }
  }

  /**
   * Path halving: pointing `idx` at its grandparent keeps the forest and
   * every representative, and the grandparent's rank is higher.
   */
  lemma HalveOk(parent: seq<nat>, rank: seq<nat>, root: seq<nat>, bound: nat, idx: nat)
    requires ForestOk(parent, rank, root, bound) && idx < |parent| && parent[idx] != idx
    ensures parent[idx] < |parent| && parent[parent[idx]] < |parent|
    ensures ForestOk(parent[idx := parent[parent[idx]]], rank, root, bound)
    ensures rank[idx] < rank[parent[parent[idx]]] <= bound && root[parent[parent[idx]]] == root[idx]
  {
    assert NodeOk(parent, rank, root, bound, idx);
    var p := parent[idx];
    assert NodeOk(parent, rank, root, bound, p);
    var g := parent[p];
    assert NodeOk(parent, rank, root, bound, g);
    var parent' := parent[idx := g];
    forall y | 0 <= y < |parent|
      ensures NodeOk(parent', rank, root, bound, y)
    {
      assert NodeOk(parent, rank, root, bound, y);
      assert root[y] != idx;
    }
  }

  /** Linking representative `ra` under a higher-ranked `rb` merges their classes. */
  lemma LinkOk(parent: seq<nat>, rank: seq<nat>, root: seq<nat>, bound: nat, ra: nat, rb: nat)
    requires ForestOk(parent, rank, root, bound)
    requires ra < |parent| && rb < |parent| && ra != rb
    requires parent[ra] == ra && parent[rb] == rb && rank[ra] < rank[rb]
    ensures ForestOk(parent[ra := rb], rank, Relink(root, ra, rb), bound)
  {
    var root' := Relink(root, ra, rb);
    var parent' := parent[ra := rb];
    assert NodeOk(parent, rank, root, bound, ra);
    assert NodeOk(parent, rank, root, bound, rb);
    forall x | 0 <= x < |parent|
      ensures NodeOk(parent', rank, root', bound, x)
    {
      assert NodeOk(parent, rank, root, bound, x);
    }
  }

  /** Linking one of two equal-ranked representatives under the other, whose rank grows. */
  lemma LinkBumpOk(parent: seq<nat>, rank: seq<nat>, root: seq<nat>, bound: nat, ra: nat, rb: nat)
    requires ForestOk(parent, rank, root, bound)
    requires ra < |parent| && rb < |parent| && ra != rb
    requires parent[ra] == ra && parent[rb] == rb && rank[ra] == rank[rb]
    ensures ForestOk(parent[rb := ra], rank[ra := rank[ra] + 1], Relink(root, rb, ra),
                     if bound < rank[ra] + 1 then rank[ra] + 1 else bound)
  {
    var root' := Relink(root, rb, ra);
    var parent' := parent[rb := ra];
    var rank' := rank[ra := rank[ra] + 1];
    var bound' := if bound < rank[ra] + 1 then rank[ra] + 1 else bound;
    assert NodeOk(parent, rank, root, bound, ra);
    assert NodeOk(parent, rank, root, bound, rb);
    forall x | 0 <= x < |parent|
      ensures NodeOk(parent', rank', root', bound', x)
    {
      assert NodeOk(parent, rank, root, bound, x);
      if x != ra && parent[x] == ra {
        assert root[x] == ra;
      }
    }
  }
}

/**
 * The disjoint-set forest `_group_records` builds over the spreadsheet rows
 * (santillana_format/profesores_sync.py): `find` with path halving and
 * `union` by rank over the `parent` and `rank` arrays.
 */
module UnionFind {
  import opened Forest

  class UnionFind {
    const n: nat
    const parent: array<nat>
    const rank: array<nat>
    ghost var root: seq<nat>
    ghost var bound: nat

    ghost predicate Valid()
      reads this, parent, rank
    {
      parent != rank && parent.Length == n && rank.Length == n && |root| == n && ForestOk(parent[..], rank[..], root, bound)
    }

    /** `parent = list(range(total))`, `rank = [0] * total`: every element alone. */
    constructor(size: nat)
      ensures Valid() && n == size && fresh(parent) && fresh(rank)
      ensures forall x :: 0 <= x < n ==> root[x] == x
    {
      n := size;
      parent := new nat[size](i => i);
      rank := new nat[size](i => 0);
      root := seq(size, i => i);
      bound := 0;
      new;
      SingletonsOk(parent[..], rank[..]);
      assert parent[..] == root;
    }

    /** `find`: follows the parent links to the representative, halving the path on the way. */
    method Find(x: nat) returns (r: nat)
      requires Valid() && x < n
      modifies parent
      ensures Valid()
      ensures r == root[x] && r < n && parent[r] == r
      ensures root == old(root) && bound == old(bound)
    {
      var idx: nat := x;
      assert NodeOk(parent[..], rank[..], root, bound, x);
      while parent[idx] != idx
        invariant Valid() && idx < n
        invariant root == old(root) && bound == old(bound)
        invariant root[idx] == root[x] && rank[idx] <= bound
        decreases bound - rank[idx]
      {
        idx := Halve(idx);
      }
      assert NodeOk(parent[..], rank[..], root, bound, idx);
      r := idx;
    }

    /** One step of path halving: `parent[x] = parent[parent[x]]`, then move there. */
    method Halve(idx: nat) returns (g: nat)
      requires Valid() && idx < n && parent[idx] != idx
      modifies parent
      ensures Valid() && g < n
      ensures root == old(root) && bound == old(bound)
      ensures rank[idx] < rank[g] <= bound && root[g] == root[idx]
    {
      ghost var before := parent[..];
      HalveOk(before, rank[..], root, bound, idx);
      g := parent[parent[idx]];
      parent[idx] := g;
      assert parent[..] == before[idx := g];
    }

    /** Puts representative `child` under the higher-ranked representative `to`. */
    method Link(child: nat, to: nat)
      requires Valid() && child < n && to < n && child != to
      requires parent[child] == child && parent[to] == to && rank[child] < rank[to]
      modifies parent, this`root
      ensures Valid() && root == Relink(old(root), child, to) && bound == old(bound)
    {
      ghost var before := parent[..];
      LinkOk(before, rank[..], root, bound, child, to);
      parent[child] := to;
      assert parent[..] == before[child := to];
      root := Relink(root, child, to);
    }

    /** Puts representative `child` under the equal-ranked `to`, whose rank grows by one. */
    method LinkBump(child: nat, to: nat)
      requires Valid() && child < n && to < n && child != to
      requires parent[child] == child && parent[to] == to && rank[child] == rank[to]
      modifies parent, rank, this`root, this`bound
      ensures Valid() && root == Relink(old(root), child, to)
    {
      ghost var before := parent[..];
      ghost var ranks := rank[..];
      LinkBumpOk(before, ranks, root, bound, to, child);
      parent[child] := to;
      assert parent[..] == before[child := to];
      rank[to] := rank[to] + 1;
      assert rank[..] == ranks[to := ranks[to] + 1];
      root := Relink(root, child, to);
      if bound < rank[to] {
        bound := rank[to];
      }
    }

    /**
     * `union`: links the lower-ranked representative under the other (ties
     * go under `a`'s, whose rank grows by one).
     */
    method Union(a: nat, b: nat)
      requires Valid() && a < n && b < n
      modifies parent, rank, this`root, this`bound
      ensures Valid()
      ensures root[a] == root[b] && (root[a] == old(root[a]) || root[a] == old(root[b]))
      ensures forall x :: 0 <= x < n ==>
                root[x] == if old(root[x]) == old(root[a]) || old(root[x]) == old(root[b]) then root[a] else old(root[x])
    {
      var ra := Find(a);
      var rb := Find(b);
      if ra == rb {
        return;
      }
      assert NodeOk(parent[..], rank[..], root, bound, a);
      if rank[ra] < rank[rb] {
        Link(ra, rb);
      } else if rank[ra] > rank[rb] {
        Link(rb, ra);
      } else {
        LinkBump(rb, ra);
      }
    }
  }
}
