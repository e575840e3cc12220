// Connectivity in a finite undirected graph, and disjoint sets with path compression.
module Graph {

  datatype Link = Link(lo: nat, hi: nat)

  predicate Adjacent(links: set<Link>, i: nat, j: nat) {
    Link(i, j) in links || Link(j, i) in links
  }

  predicate IsPath(links: set<Link>, p: seq<nat>) {
    p != [] && forall k :: 0 <= k < |p| - 1 ==> Adjacent(links, p[k], p[k + 1])
  }

  predicate PathBetween(links: set<Link>, p: seq<nat>, i: nat, j: nat) {
    IsPath(links, p) && p[0] == i && p[|p| - 1] == j
  }

  /** i and j are in the same component. */
  ghost predicate Linked(links: set<Link>, i: nat, j: nat) {
    exists p :: PathBetween(links, p, i, j)
  }

  lemma LinkedToItself(links: set<Link>, i: nat)
    ensures Linked(links, i, i)
  {
    assert PathBetween(links, [i], i, i);
  }

  lemma LinkedByLink(links: set<Link>, i: nat, j: nat)
    requires Link(i, j) in links
    ensures Linked(links, i, j)
  {
    assert PathBetween(links, [i, j], i, j);
  }

  function Reverse(p: seq<nat>): (r: seq<nat>)
    ensures |r| == |p| && forall k :: 0 <= k < |p| ==> r[k] == p[|p| - 1 - k]
  {
    seq(|p|, k requires 0 <= k < |p| => p[|p| - 1 - k])
  }

  lemma LinkedBackwards(links: set<Link>, i: nat, j: nat)
    requires Linked(links, i, j)
    ensures Linked(links, j, i)
  {
    var p :| PathBetween(links, p, i, j);
    var r := Reverse(p);
    forall k | 0 <= k < |r| - 1
      ensures Adjacent(links, r[k], r[k + 1])
    {
      assert Adjacent(links, p[|p| - 2 - k], p[|p| - 2 - k + 1]);
    }
    assert PathBetween(links, r, j, i);
  }

  lemma LinkedOnwards(links: set<Link>, i: nat, j: nat, k: nat)
    requires Linked(links, i, j) && Linked(links, j, k)
    ensures Linked(links, i, k)
  {
    var p :| PathBetween(links, p, i, j);
    var q :| PathBetween(links, q, j, k);
    var r := p + q[1..];
    forall n | 0 <= n < |r| - 1
      ensures Adjacent(links, r[n], r[n + 1])
    {
      if n < |p| - 1 {
        assert Adjacent(links, p[n], p[n + 1]);
      } else {
        assert Adjacent(links, q[n - (|p| - 1)], q[n - (|p| - 1) + 1]);
      }
    }
    assert PathBetween(links, r, i, k);
  }

  /** A labelling that agrees along every link agrees on everything that is connected. */
  lemma {:induction false} LabelConstantAlongPath(links: set<Link>, tree: seq<nat>, p: seq<nat>, i: nat, j: nat)
    requires forall l :: l in links ==> l.lo < |tree| && l.hi < |tree| && tree[l.lo] == tree[l.hi]
    requires PathBetween(links, p, i, j) && i < |tree| && j < |tree|
    ensures tree[i] == tree[j]
    decreases |p|
  {
    if |p| > 1 {
      assert Adjacent(links, p[0], p[1]);
      assert Link(p[0], p[1]) in links || Link(p[1], p[0]) in links;
      forall k | 0 <= k < |p[1..]| - 1
        ensures Adjacent(links, p[1..][k], p[1..][k + 1])
      {
        assert Adjacent(links, p[k + 1], p[k + 2]);
      }
      LabelConstantAlongPath(links, tree, p[1..], p[1], j);
    }
  }

  lemma LabelConstantOnComponents(links: set<Link>, tree: seq<nat>, i: nat, j: nat)
    requires forall l :: l in links ==> l.lo < |tree| && l.hi < |tree| && tree[l.lo] == tree[l.hi]
    requires i < |tree| && j < |tree| && Linked(links, i, j)
    ensures tree[i] == tree[j]
  {
    var p :| PathBetween(links, p, i, j);
    LabelConstantAlongPath(links, tree, p, i, j);
  }

  /** The elements connected to i. */
  ghost function Component(links: set<Link>, size: nat, i: nat): set<nat> {
    set j: nat | j < size && Linked(links, i, j)
  }

  /** parent is a forest: tree[i] is the root of i's tree, and height falls on
      the way to the root. */
  ghost predicate Forest(parent: seq<nat>, tree: seq<nat>, height: seq<nat>) {
    && |parent| == |tree| == |height|
    && (forall i :: 0 <= i < |parent| ==> Hangs(parent, tree, height, i))
  }

  /** What a forest says of one element. */
  ghost predicate Hangs(parent: seq<nat>, tree: seq<nat>, height: seq<nat>, i: nat)
    requires |parent| == |tree| == |height| && i < |parent|
  {
    var up, root := parent[i], tree[i];
    && up < |parent| && root < |parent|
    && tree[up] == root && parent[root] == root
    && (up == i ==> root == i)
    && (up != i ==> height[up] < height[i])
    && (root != i ==> height[root] < height[i])
  }

  /** Every element of tree b moves to tree a. */
  function Relabel(tree: seq<nat>, a: nat, b: nat): (r: seq<nat>)
    ensures |r| == |tree| && forall i :: 0 <= i < |r| ==> r[i] == if tree[i] == b then a else tree[i]
  {
    seq(|tree|, i requires 0 <= i < |tree| => if tree[i] == b then a else tree[i])
  }

  function Raise(height: seq<nat>, tree: seq<nat>, b: nat, step: nat): (r: seq<nat>)
    requires |height| == |tree|
    ensures |r| == |height| && forall i :: 0 <= i < |r| ==> r[i] == if tree[i] == b then height[i] + step else height[i]
  {
    seq(|height|, i requires 0 <= i < |height| => if tree[i] == b then height[i] + step else height[i])
  }

  /** Hanging one root under another merges their trees. */
  lemma ForestAfterMerge(parent: seq<nat>, tree: seq<nat>, height: seq<nat>, a: nat, b: nat)
    requires Forest(parent, tree, height) && a < |parent| && b < |parent| && a != b
    requires parent[a] == a && parent[b] == b
    ensures Forest(parent[b := a], Relabel(tree, a, b), Raise(height, tree, b, height[a] + 1))
  {
    assert Hangs(parent, tree, height, a) && Hangs(parent, tree, height, b);
    var parent', tree', height' := parent[b := a], Relabel(tree, a, b), Raise(height, tree, b, height[a] + 1);
    forall i | 0 <= i < |parent|
      ensures Hangs(parent', tree', height', i)
    {
      assert Hangs(parent, tree, height, i);
      assert Hangs(parent, tree, height, parent[i]) && Hangs(parent, tree, height, tree[i]);
    }
  }

  /** Pointing an element straight at its root changes no tree. */
  lemma ForestAfterCompression(parent: seq<nat>, tree: seq<nat>, height: seq<nat>, i: nat)
    requires Forest(parent, tree, height) && i < |parent| && parent[i] != i
    ensures Forest(parent[i := tree[i]], tree, height)
  {
    assert Hangs(parent, tree, height, i);
    var parent' := parent[i := tree[i]];
    forall k | 0 <= k < |parent|
      ensures Hangs(parent', tree, height, k)
    {
      assert Hangs(parent, tree, height, k);
      assert Hangs(parent, tree, height, tree[k]);
    }
  }

  class DisjointSets {
    const parent: array<nat>
    ghost var tree: seq<nat>
    ghost var height: seq<nat>

    ghost predicate Valid()
      reads this, parent
    {
      Forest(parent[..], tree, height)
    }

    constructor (n: nat)
      ensures Valid() && fresh(parent) && parent.Length == n
      ensures forall i :: 0 <= i < n ==> tree[i] == i
    {
      var a := new nat[n];
      for i := 0 to n
        invariant forall k :: 0 <= k < i ==> a[k] == k
      {
        a[i] := i;
      }
      parent := a;
      tree := a[..];
      height := seq(n, i => 0);
      new;
      assert forall i :: 0 <= i < n ==> Hangs(parent[..], tree, height, i);
    }

    /** The root of n's tree. The path from n to it is compressed; the trees stay as they are. */
    method Find(n: nat) returns (root: nat)
      requires Valid() && n < parent.Length
      modifies parent
      ensures Valid()
      ensures root == tree[n] && root < parent.Length && parent[root] == root
      decreases height[n]
    {
      assert Hangs(parent[..], tree, height, n);
      if parent[n] != n {
        assert Hangs(parent[..], tree, height, parent[n]);
        var up := Find(parent[n]);
        ghost var before := parent[..];
        assert Hangs(before, tree, height, n) && Hangs(before, tree, height, up);
        if before[n] != n { ForestAfterCompression(before, tree, height, n); }
        parent[n] := up;
        assert parent[..] == before[n := up];
      }
      root := parent[n];
    }

    method Union(a: nat, b: nat)
      requires Valid() && a < parent.Length && b < parent.Length
      modifies this, parent
      ensures Valid()
      ensures tree == Relabel(old(tree), old(tree[a]), old(tree[b]))
    {
      var rootA := Find(a);
      var rootB := Find(b);
      assert Hangs(parent[..], tree, height, a);
      if rootA != rootB {
        Attach(rootA, rootB);
      }
    }

    method Attach(rootA: nat, rootB: nat)
      requires Valid() && rootA < parent.Length && rootB < parent.Length && rootA != rootB
      requires parent[rootA] == rootA && parent[rootB] == rootB
      modifies this, parent
      ensures Valid()
      ensures tree == Relabel(old(tree), rootA, rootB)
    {
      ghost var before := parent[..];
      ForestAfterMerge(before, tree, height, rootA, rootB);
      parent[rootB] := rootA;
      assert parent[..] == before[rootB := rootA];
      height := Raise(height, tree, rootB, height[rootA] + 1);
      tree := Relabel(tree, rootA, rootB);
    }
  }
}
