// Grid-bucketed clustering of positions: internal/geofence/cluster.go.
module Cluster {
  import opened Plane
  import opened Graph
  import opened Sets

  const METERS_PER_DEGREE := 111320.0

  datatype Point = Point(latitude: real, longitude: real)

  datatype Cell = Cell(row: int, col: int)

  function CellOf(p: Point, size: real): Cell
    requires size > 0.0
  {
    Cell((p.latitude / size).Floor, (p.longitude / size).Floor)
  }

  /** How many columns to either side can hold a point in reach; cos is that of the latitude. */
  function CellSpan(cos: real): (span: int)
    ensures span >= 1
  {
    var clamped := if cos < 0.1 then 0.1 else cos;
    var span := Ceil(1.0 / clamped);
    if span < 1 then 1 else span
  }

  function Distance(a: Point, b: Point, hypot: (real, real) -> real, cos: real -> real): real {
    hypot(North(a, b), East(a, b, cos(a.latitude)))
  }

  function North(a: Point, b: Point): real {
    (b.latitude - a.latitude) * METERS_PER_DEGREE
  }

  function East(a: Point, b: Point, cos: real): real {
    (b.longitude - a.longitude) * METERS_PER_DEGREE * cos
  }

  /** The points numbered n and m are at most radius apart, seen from n. */
  predicate Near(points: seq<Point>, n: nat, m: nat, radius: real, hypot: (real, real) -> real, cos: real -> real) {
    n < |points| && m < |points| && Distance(points[n], points[m], hypot, cos) <= radius
  }

  /** The cells searched around a are those in three rows and 2 * span + 1 columns. */
  predicate InWindow(a: Cell, b: Cell, span: int) {
    -1 <= b.row - a.row <= 1 && -span <= b.col - a.col <= span
  }

  predicate Reaches(a: Point, b: Point, radius: real, cos: real -> real)
    requires radius > 0.0
  {
    InWindow(CellOf(a, radius / METERS_PER_DEGREE), CellOf(b, radius / METERS_PER_DEGREE), CellSpan(cos(a.latitude)))
  }

  /** All pairs within the radius, the distance taken at the latitude of the earlier point. */
  function AllPairs(points: seq<Point>, radius: real, hypot: (real, real) -> real, cos: real -> real): set<Link> {
    set n: nat, m: nat | n < m < |points| && Near(points, n, m, radius, hypot, cos) :: Link(n, m)
  }

  /** Those of them that the search of the neighbouring cells can find. */
  function WindowPairs(points: seq<Point>, radius: real, hypot: (real, real) -> real, cos: real -> real): set<Link>
    requires radius > 0.0
  {
    set l | l in AllPairs(points, radius, hypot, cos) && Reaches(points[l.lo], points[l.hi], radius, cos)
  }

  // ---- The window misses nobody ----

  function Abs(x: real): real {
    if x < 0.0 then -x else x
  }

  lemma SidesWithinHypot(hypot: (real, real) -> real, x: real, y: real, bound: real)
    requires HypotAt(hypot, x, y) && bound >= 0.0 && hypot(x, y) <= bound
    ensures -bound <= x <= bound && -bound <= y <= bound
  {
    WithinIffSquares(hypot, x, y, bound);
    SquareNonNegative(x);
    SquareNonNegative(y);
    AbsWithin(x, bound);
    AbsWithin(y, bound);
  }

  lemma AbsWithin(x: real, bound: real)
    requires bound >= 0.0 && x * x <= bound * bound
    ensures -bound <= x <= bound
  {
    assert Abs(x) * Abs(x) == x * x;
    SquareMonotone(Abs(x), bound);
  }

  /** A difference of d degrees, in cells of the given size. */
  lemma InCells(x: real, y: real, size: real, n: int)
    requires size > 0.0 && -(n as real) * size <= x - y <= n as real * size
    ensures -n <= (x / size).Floor - (y / size).Floor <= n
  {
    var u, v := x / size, y / size;
    Scaled(u - v, n as real, size, x - y, n as real * size);
    Scaled(v - u, n as real, size, y - x, n as real * size);
    FloorsStayClose(u, v, n);
  }

  lemma Scaled(d: real, bound: real, size: real, ds: real, bs: real)
    requires size > 0.0 && ds == d * size && bs == bound * size && ds <= bs
    ensures d <= bound
  {
    assert (d - bound) * size == ds - bs;
    if d > bound {
      ProductPositive(d - bound, size);
    }
  }

  /** The span covers every column that the radius does, unless the cosine is below its clamp. */
  lemma SpanCovers(k: real, span: int, d: real, x: real, radius: real)
    requires radius > 0.0 && Abs(k) >= 0.1 && span == CellSpan(k)
    requires x == d * METERS_PER_DEGREE * k && -radius <= x <= radius
    ensures -(span as real) * (radius / METERS_PER_DEGREE) <= d <= span as real * (radius / METERS_PER_DEGREE)
  {
    var a, size := Abs(k), radius / METERS_PER_DEGREE;
    assert span as real * a >= 1.0 by {
      var inverse := 1.0 / (if k < 0.1 then 0.1 else k);
      assert span as real >= inverse;
      if k >= 0.1 {
        ProductMonotone(inverse, span as real, k);
      } else {
        assert span as real >= 10.0;
        ProductMonotone(10.0, span as real, a);
      }
    }
    var e := Abs(d);
    assert e * METERS_PER_DEGREE * a <= radius by {
      assert e * METERS_PER_DEGREE * a == Abs(d * METERS_PER_DEGREE * k);
    }
    assert e * a <= size by {
      assert e * METERS_PER_DEGREE * a == (e * a) * METERS_PER_DEGREE;
    }
    Unclamp(e, a, span as real, size);
  }

  lemma Unclamp(e: real, a: real, n: real, size: real)
    requires a > 0.0 && size > 0.0 && e * a <= size && n * a >= 1.0
    ensures e <= n * size
  {
    ProductMonotone(1.0, n * a, size);
    assert (n * size) * a == (n * a) * size;
    Scaled(e, n * size, a, e * a, (n * size) * a);
  }

  lemma NearReaches(a: Point, b: Point, radius: real, hypot: (real, real) -> real, cos: real -> real)
    requires radius > 0.0 && IsHypot(hypot) && Abs(cos(a.latitude)) >= 0.1
    requires Distance(a, b, hypot, cos) <= radius
    ensures Reaches(a, b, radius, cos)
  {
    var x, y := North(a, b), East(a, b, cos(a.latitude));
    assert HypotAt(hypot, x, y);
    SidesWithinHypot(hypot, x, y, radius);
    Degrees(b.latitude - a.latitude, x, radius);
    SpanCovers(cos(a.latitude), CellSpan(cos(a.latitude)), b.longitude - a.longitude, y, radius);
    InCellsOf(a, b, radius / METERS_PER_DEGREE, CellSpan(cos(a.latitude)));
  }

  lemma Degrees(d: real, x: real, radius: real)
    requires x == d * METERS_PER_DEGREE && -radius <= x <= radius
    ensures -(radius / METERS_PER_DEGREE) <= d <= radius / METERS_PER_DEGREE
  {
  }

  lemma InCellsOf(a: Point, b: Point, size: real, span: int)
    requires size > 0.0 && -size <= b.latitude - a.latitude <= size
    requires -(span as real) * size <= b.longitude - a.longitude <= span as real * size
    ensures InWindow(CellOf(a, size), CellOf(b, size), span)
  {
    InCells(b.latitude, a.latitude, size, 1);
    InCells(b.longitude, a.longitude, size, span);
  }

  /** Away from the poles the grid search sees every pair that an all-pairs search sees. */
  lemma WindowMissesNoPair(points: seq<Point>, radius: real, hypot: (real, real) -> real, cos: real -> real)
    requires radius > 0.0 && IsHypot(hypot)
    requires forall p :: p in points ==> Abs(cos(p.latitude)) >= 0.1
    ensures WindowPairs(points, radius, hypot, cos) == AllPairs(points, radius, hypot, cos)
  {
    forall l | l in AllPairs(points, radius, hypot, cos)
      ensures l in WindowPairs(points, radius, hypot, cos)
    {
      NearReaches(points[l.lo], points[l.hi], radius, hypot, cos);
    }
  }

  // ---- Groups ----

  /** The indices below n that carry the label, in ascending order. */
  function Members<T(==)>(labels: seq<T>, l: T, n: nat): seq<nat>
    requires n <= |labels|
  {
    if n == 0 then []
    else Members(labels, l, n - 1) + if labels[n - 1] == l then [n - 1] else []
  }

  lemma {:induction false} MembersExact<T>(labels: seq<T>, l: T, n: nat)
    requires n <= |labels|
    ensures Ascending(Members(labels, l, n))
    ensures forall i: nat :: i in Members(labels, l, n) <==> i < n && labels[i] == l
  {
    if n > 0 {
      MembersExact(labels, l, n - 1);
      var before := Members(labels, l, n - 1);
      assert forall i :: 0 <= i < |before| ==> before[i] in before;
    }
  }

  /** The clusters are exactly the components of at least minSize elements, each listed once and
      in ascending order. */
  ghost predicate IsComponents(clusters: seq<seq<nat>>, links: set<Link>, size: nat, minSize: int) {
    && (forall a :: 0 <= a < |clusters| ==> Ascending(clusters[a]) && clusters[a] != [] && |clusters[a]| >= minSize)
    && (forall a, i :: 0 <= a < |clusters| && i in clusters[a] ==>
        i < size && Elements(clusters[a]) == Component(links, size, i))
    && (forall a, b :: 0 <= a < b < |clusters| ==> Elements(clusters[a]) !! Elements(clusters[b]))
    && (forall i: nat :: i < size && |Component(links, size, i)| >= minSize ==> Clustered(clusters, i))
  }

  predicate Clustered(clusters: seq<seq<nat>>, i: nat) {
    exists a :: 0 <= a < |clusters| && i in clusters[a]
  }

  /** That fixes the clusters, up to the order in which they are listed. */
  lemma ComponentsUnique(clusters: seq<seq<nat>>, others: seq<seq<nat>>, links: set<Link>, size: nat, minSize: int)
    requires IsComponents(clusters, links, size, minSize) && IsComponents(others, links, size, minSize)
    ensures multiset(clusters) == multiset(others)
  {
    ListedOnce(clusters, links, size, minSize);
    ListedOnce(others, links, size, minSize);
    forall c: seq<nat>
      ensures c in clusters <==> c in others
    {
      if c in clusters { SameCluster(clusters, others, links, size, minSize, c); }
      if c in others { SameCluster(others, clusters, links, size, minSize, c); }
    }
  }

  lemma SameCluster(clusters: seq<seq<nat>>, others: seq<seq<nat>>, links: set<Link>, size: nat, minSize: int,
                    c: seq<nat>)
    requires IsComponents(clusters, links, size, minSize) && IsComponents(others, links, size, minSize)
    requires c in clusters
    ensures c in others
  {
    var a :| 0 <= a < |clusters| && clusters[a] == c;
    assert c[0] in clusters[a];
    AscendingSize(c);
    assert Elements(c) == Component(links, size, c[0]);
    assert Clustered(others, c[0]);
    var b :| 0 <= b < |others| && c[0] in others[b];
    AscendingUnique(c, others[b]);
  }

  lemma ListedOnce(clusters: seq<seq<nat>>, links: set<Link>, size: nat, minSize: int)
    requires IsComponents(clusters, links, size, minSize)
    ensures forall c :: c in clusters ==> multiset(clusters)[c] == 1
  {
    forall a, b | 0 <= a < b < |clusters|
      ensures clusters[a] != clusters[b]
    {
      assert clusters[a][0] in Elements(clusters[a]);
    }
    DistinctCount(clusters);
  }

  lemma {:induction false} DistinctCount(s: seq<seq<nat>>)
    requires forall a, b :: 0 <= a < b < |s| ==> s[a] != s[b]
    ensures forall c :: c in s ==> multiset(s)[c] == 1
  {
    if s != [] {
      var last, rest := s[|s| - 1], s[..|s| - 1];
      assert s == rest + [last];
      DistinctCount(rest);
    }
  }

  /** The trees are the components of the links. */
  ghost predicate Follows(tree: seq<nat>, links: set<Link>) {
    && (forall i :: 0 <= i < |tree| ==> Linked(links, i, tree[i]))
    && (forall l :: l in links ==> l.lo < |tree| && l.hi < |tree| && tree[l.lo] == tree[l.hi])
  }

  lemma TreesAreComponents(tree: seq<nat>, links: set<Link>, i: nat, j: nat)
    requires Follows(tree, links) && i < |tree| && j < |tree|
    ensures tree[i] == tree[j] <==> Linked(links, i, j)
  {
    if tree[i] == tree[j] {
      LinkedBackwards(links, j, tree[j]);
      LinkedOnwards(links, i, tree[i], j);
    }
    if Linked(links, i, j) {
      LabelConstantOnComponents(links, tree, i, j);
    }
  }

  lemma MembersAreComponent(tree: seq<nat>, links: set<Link>, i: nat, root: nat)
    requires Follows(tree, links) && i < |tree| && tree[i] == root
    ensures Ascending(Members(tree, root, |tree|)) && i in Members(tree, root, |tree|)
    ensures Elements(Members(tree, root, |tree|)) == Component(links, |tree|, i)
    ensures |Members(tree, root, |tree|)| == |Component(links, |tree|, i)|
  {
    MembersExact(tree, root, |tree|);
    forall j: nat | j < |tree|
      ensures tree[j] == root <==> Linked(links, i, j)
    {
      TreesAreComponents(tree, links, i, j);
    }
    AscendingSize(Members(tree, root, |tree|));
  }

  /** Roots chosen so that their trees are those with at least minSize elements. */
  ghost predicate LargeTrees(roots: seq<nat>, clusters: seq<seq<nat>>, tree: seq<nat>, minSize: int) {
    && |roots| == |clusters|
    && (forall a, b :: 0 <= a < b < |roots| ==> roots[a] != roots[b])
    && (forall a :: 0 <= a < |roots| ==>
        roots[a] in tree && clusters[a] == Members(tree, roots[a], |tree|) && |clusters[a]| >= minSize)
    && (forall i :: 0 <= i < |tree| && |Members(tree, tree[i], |tree|)| >= minSize ==> tree[i] in roots)
  }

  lemma LargeTreesAreComponents(roots: seq<nat>, clusters: seq<seq<nat>>, tree: seq<nat>, links: set<Link>,
                                minSize: int)
    requires Follows(tree, links) && LargeTrees(roots, clusters, tree, minSize) && minSize >= 1
    ensures IsComponents(clusters, links, |tree|, minSize)
  {
    forall a | 0 <= a < |clusters|
      ensures Ascending(clusters[a]) && forall i: nat :: i in clusters[a] <==> i < |tree| && tree[i] == roots[a]
    {
      MembersExact(tree, roots[a], |tree|);
    }
    forall a, i | 0 <= a < |clusters| && i in clusters[a]
      ensures Elements(clusters[a]) == Component(links, |tree|, i)
    {
      MembersAreComponent(tree, links, i, roots[a]);
    }
    forall i: nat | i < |tree| && |Component(links, |tree|, i)| >= minSize
      ensures Clustered(clusters, i)
    {
      MembersAreComponent(tree, links, i, tree[i]);
      var a :| 0 <= a < |roots| && roots[a] == tree[i];
    }
  }

  // ---- The program ----

  function CellsOf(points: seq<Point>, size: real): (cells: seq<Cell>)
    requires size > 0.0
    ensures |cells| == |points| && forall n :: 0 <= n < |points| ==> cells[n] == CellOf(points[n], size)
  {
    seq(|points|, n requires 0 <= n < |points| => CellOf(points[n], size))
  }

  /** What a lookup in a Go map of slices yields: nothing for a key it does not hold. */
  function Lookup<K(==)>(m: map<K, seq<nat>>, k: K): seq<nat> {
    if k in m then m[k] else []
  }

  ghost predicate GroupsBy<T(!new)>(groups: map<T, seq<nat>>, labels: seq<T>, n: nat)
    requires n <= |labels|
  {
    forall l :: Lookup(groups, l) == Members(labels, l, n)
  }

  function AddTo<K>(groups: map<K, seq<nat>>, k: K, n: nat): map<K, seq<nat>> {
    groups[k := Lookup(groups, k) + [n]]
  }

  lemma GroupsGrow<T(!new)>(groups: map<T, seq<nat>>, labels: seq<T>, n: nat)
    requires n < |labels| && GroupsBy(groups, labels, n)
    ensures GroupsBy(AddTo(groups, labels[n], n), labels, n + 1)
  {
    var grown := AddTo(groups, labels[n], n);
    forall l
      ensures Lookup(grown, l) == Members(labels, l, n + 1)
    {
      assert Lookup(groups, l) == Members(labels, l, n);
    }
  }

  method BuildGrid(points: seq<Point>, size: real) returns (grid: map<Cell, seq<nat>>)
    requires size > 0.0
    ensures GroupsBy(grid, CellsOf(points, size), |points|)
  {
    grid := map[];
    ghost var cells := CellsOf(points, size);
    for n := 0 to |points|
      invariant GroupsBy(grid, cells, n)
    {
      var cell := CellOf(points[n], size);
      GroupsGrow(grid, cells, n);
      grid := AddTo(grid, cell, n);
    }
  }

  /** Elements that were in one tree still are. */
  ghost predicate Coarser(before: seq<nat>, after: seq<nat>) {
    |before| == |after| && forall i, j :: 0 <= i < |before| && 0 <= j < |before| && before[i] == before[j] ==>
      after[i] == after[j]
  }

  ghost predicate WithinLinks(tree: seq<nat>, links: set<Link>) {
    forall i :: 0 <= i < |tree| ==> Linked(links, i, tree[i])
  }

  lemma MergeWithinLinks(tree: seq<nat>, links: set<Link>, n: nat, m: nat)
    requires WithinLinks(tree, links) && n < |tree| && m < |tree| && Link(n, m) in links
    ensures WithinLinks(Relabel(tree, tree[n], tree[m]), links)
  {
    forall i | 0 <= i < |tree| && tree[i] == tree[m]
      ensures Linked(links, i, tree[n])
    {
      LinkedBackwards(links, m, tree[m]);
      LinkedOnwards(links, i, tree[m], m);
      LinkedByLink(links, n, m);
      LinkedBackwards(links, n, m);
      LinkedOnwards(links, i, m, n);
      LinkedOnwards(links, i, n, tree[n]);
    }
  }

  method Join(sets: DisjointSets, n: nat, m: nat, ghost links: set<Link>)
    requires sets.Valid() && n < sets.parent.Length && m < sets.parent.Length
    requires WithinLinks(sets.tree, links) && Link(n, m) in links
    modifies sets, sets.parent
    ensures sets.Valid() && WithinLinks(sets.tree, links) && Coarser(old(sets.tree), sets.tree)
    ensures sets.tree[n] == sets.tree[m]
  {
    MergeWithinLinks(sets.tree, links, n, m);
    sets.Union(n, m);
  }

  lemma CoarserStill(first: seq<nat>, second: seq<nat>, third: seq<nat>)
    requires Coarser(first, second) && Coarser(second, third)
    ensures Coarser(first, third)
  {
  }

  /** n has been joined to each of the first k candidates that lies ahead of it and within the radius. */
  ghost predicate Joined(points: seq<Point>, tree: seq<nat>, n: nat, bucket: seq<nat>, k: nat, radius: real,
                         hypot: (real, real) -> real, cos: real -> real)
    requires |tree| == |points| && n < |points| && k <= |bucket|
  {
    forall i :: 0 <= i < k && bucket[i] > n && Near(points, n, bucket[i], radius, hypot, cos) ==>
      tree[n] == tree[bucket[i]]
  }

  lemma StillJoined(points: seq<Point>, tree: seq<nat>, later: seq<nat>, n: nat, bucket: seq<nat>, k: nat, radius: real,
                    hypot: (real, real) -> real, cos: real -> real)
    requires |tree| == |points| && n < |points| && k <= |bucket|
    requires Joined(points, tree, n, bucket, k, radius, hypot, cos) && Coarser(tree, later)
    ensures Joined(points, later, n, bucket, k, radius, hypot, cos)
  {
  }

  method ScanBucket(points: seq<Point>, sets: DisjointSets, n: nat, bucket: seq<nat>, radius: real,
                    hypot: (real, real) -> real, cos: real -> real, ghost links: set<Link>)
    requires sets.Valid() && sets.parent.Length == |points| && n < |points|
    requires WithinLinks(sets.tree, links)
    requires forall m :: m in bucket ==> m < |points|
    requires forall m :: m in bucket && m > n && Near(points, n, m, radius, hypot, cos) ==> Link(n, m) in links
    modifies sets, sets.parent
    ensures sets.Valid() && WithinLinks(sets.tree, links) && Coarser(old(sets.tree), sets.tree)
    ensures Joined(points, sets.tree, n, bucket, |bucket|, radius, hypot, cos)
  {
    for k := 0 to |bucket|
      invariant sets.Valid() && WithinLinks(sets.tree, links) && Coarser(old(sets.tree), sets.tree)
      invariant Joined(points, sets.tree, n, bucket, k, radius, hypot, cos)
    {
      var m := bucket[k];
      assert m in bucket;
      if m <= n {
        continue;
      }
      if Distance(points[n], points[m], hypot, cos) <= radius {
        ghost var before := sets.tree;
        Join(sets, n, m, links);
        CoarserStill(old(sets.tree), before, sets.tree);
        StillJoined(points, before, sets.tree, n, bucket, k, radius, hypot, cos);
      }
    }
  }

  /** n has been joined to everyone in the cell that it should be joined to. */
  ghost predicate CellJoined(points: seq<Point>, tree: seq<nat>, n: nat, cells: seq<Cell>, cell: Cell, radius: real,
                             hypot: (real, real) -> real, cos: real -> real)
    requires |tree| == |points| == |cells| && n < |points|
  {
    var bucket := Members(cells, cell, |cells|);
    Joined(points, tree, n, bucket, |bucket|, radius, hypot, cos)
  }

  /** So it has for every cell of the window around n up to the one at (row, col). */
  ghost predicate Scanned(points: seq<Point>, tree: seq<nat>, n: nat, cells: seq<Cell>, span: int, row: int, col: int,
                          radius: real, hypot: (real, real) -> real, cos: real -> real)
    requires |tree| == |points| == |cells| && n < |points|
  {
    forall cell :: InWindow(cells[n], cell, span) && (cell.row < row || (cell.row == row && cell.col < col)) ==>
      CellJoined(points, tree, n, cells, cell, radius, hypot, cos)
  }

  lemma StillScanned(points: seq<Point>, tree: seq<nat>, later: seq<nat>, n: nat, cells: seq<Cell>, span: int,
                     row: int, col: int, radius: real, hypot: (real, real) -> real, cos: real -> real)
    requires |tree| == |points| == |cells| && n < |points| && Coarser(tree, later)
    requires Scanned(points, tree, n, cells, span, row, col, radius, hypot, cos)
    ensures Scanned(points, later, n, cells, span, row, col, radius, hypot, cos)
  {
    forall cell | InWindow(cells[n], cell, span) && (cell.row < row || (cell.row == row && cell.col < col))
      ensures CellJoined(points, later, n, cells, cell, radius, hypot, cos)
    {
      assert CellJoined(points, tree, n, cells, cell, radius, hypot, cos);
      var bucket := Members(cells, cell, |cells|);
      StillJoined(points, tree, later, n, bucket, |bucket|, radius, hypot, cos);
    }
  }

  /** Whoever is near in a cell of the window makes a link. */
  lemma BucketLinks(points: seq<Point>, n: nat, cells: seq<Cell>, cell: Cell, radius: real,
                    hypot: (real, real) -> real, cos: real -> real)
    requires radius > 0.0 && cells == CellsOf(points, radius / METERS_PER_DEGREE) && n < |points|
    requires InWindow(cells[n], cell, CellSpan(cos(points[n].latitude)))
    ensures forall m :: m in Members(cells, cell, |cells|) ==> m < |points|
    ensures forall m :: m in Members(cells, cell, |cells|) && m > n && Near(points, n, m, radius, hypot, cos) ==>
      Link(n, m) in WindowPairs(points, radius, hypot, cos)
  {
    MembersExact(cells, cell, |cells|);
    forall m | m in Members(cells, cell, |cells|) && m > n && Near(points, n, m, radius, hypot, cos)
      ensures Link(n, m) in WindowPairs(points, radius, hypot, cos)
    {
      assert Link(n, m) in AllPairs(points, radius, hypot, cos);
    }
  }

  /** A complete scan has found every link of n. */
  lemma ScanFindsLinks(points: seq<Point>, tree: seq<nat>, n: nat, cells: seq<Cell>, radius: real,
                       hypot: (real, real) -> real, cos: real -> real, l: Link)
    requires radius > 0.0 && cells == CellsOf(points, radius / METERS_PER_DEGREE) && n < |points| == |tree|
    requires Scanned(points, tree, n, cells, CellSpan(cos(points[n].latitude)), cells[n].row + 2, 0, radius, hypot, cos)
    requires l in WindowPairs(points, radius, hypot, cos) && l.lo == n
    ensures tree[l.lo] == tree[l.hi]
  {
    var cell := cells[l.hi];
    assert CellJoined(points, tree, n, cells, cell, radius, hypot, cos);
    MembersExact(cells, cell, |cells|);
    var bucket := Members(cells, cell, |cells|);
    var i :| 0 <= i < |bucket| && bucket[i] == l.hi;
  }

  method ScanCell(points: seq<Point>, grid: map<Cell, seq<nat>>, sets: DisjointSets, n: nat, cell: Cell, radius: real,
                  hypot: (real, real) -> real, cos: real -> real, ghost links: set<Link>, ghost cells: seq<Cell>)
    requires radius > 0.0 && cells == CellsOf(points, radius / METERS_PER_DEGREE) && GroupsBy(grid, cells, |points|)
    requires links == WindowPairs(points, radius, hypot, cos)
    requires sets.Valid() && sets.parent.Length == |points| && n < |points|
    requires WithinLinks(sets.tree, links)
    requires InWindow(cells[n], cell, CellSpan(cos(points[n].latitude)))
    modifies sets, sets.parent
    ensures sets.Valid() && WithinLinks(sets.tree, links) && Coarser(old(sets.tree), sets.tree)
    ensures CellJoined(points, sets.tree, n, cells, cell, radius, hypot, cos)
  {
    var bucket := Lookup(grid, cell);
    BucketLinks(points, n, cells, cell, radius, hypot, cos);
    ScanBucket(points, sets, n, bucket, radius, hypot, cos, links);
  }

  method ScanRow(points: seq<Point>, grid: map<Cell, seq<nat>>, sets: DisjointSets, n: nat, dRow: int, colSpan: int,
                 radius: real,
                 hypot: (real, real) -> real, cos: real -> real, ghost links: set<Link>, ghost cells: seq<Cell>)
    requires radius > 0.0 && cells == CellsOf(points, radius / METERS_PER_DEGREE) && GroupsBy(grid, cells, |points|)
    requires links == WindowPairs(points, radius, hypot, cos)
    requires sets.Valid() && sets.parent.Length == |points| && n < |points|
    requires WithinLinks(sets.tree, links)
    requires -1 <= dRow <= 1 && colSpan == CellSpan(cos(points[n].latitude))
    requires Scanned(points, sets.tree, n, cells, colSpan, cells[n].row + dRow, cells[n].col - colSpan, radius, hypot,
      cos)
    modifies sets, sets.parent
    ensures sets.Valid() && WithinLinks(sets.tree, links) && Coarser(old(sets.tree), sets.tree)
    ensures Scanned(points, sets.tree, n, cells, colSpan, cells[n].row + dRow, cells[n].col + colSpan + 1, radius,
      hypot, cos)
  {
    var cell := CellOf(points[n], radius / METERS_PER_DEGREE);
    for dCol := -colSpan to colSpan + 1
      invariant sets.Valid() && WithinLinks(sets.tree, links) && Coarser(old(sets.tree), sets.tree)
      invariant Scanned(points, sets.tree, n, cells, colSpan, cell.row + dRow, cell.col + dCol, radius, hypot, cos)
    {
      var neighbor := Cell(cell.row + dRow, cell.col + dCol);
      ghost var before := sets.tree;
      ScanCell(points, grid, sets, n, neighbor, radius, hypot, cos, links, cells);
      CoarserStill(old(sets.tree), before, sets.tree);
      StillScanned(points, before, sets.tree, n, cells, colSpan, cell.row + dRow, cell.col + dCol, radius, hypot, cos);
      ScannedOneMore(points, sets.tree, n, cells, colSpan, neighbor, radius, hypot, cos);
    }
  }

  lemma ScannedOneMore(points: seq<Point>, tree: seq<nat>, n: nat, cells: seq<Cell>, span: int, cell: Cell,
                       radius: real, hypot: (real, real) -> real, cos: real -> real)
    requires |tree| == |points| == |cells| && n < |points|
    requires Scanned(points, tree, n, cells, span, cell.row, cell.col, radius, hypot, cos)
    requires CellJoined(points, tree, n, cells, cell, radius, hypot, cos)
    ensures Scanned(points, tree, n, cells, span, cell.row, cell.col + 1, radius, hypot, cos)
  {
    forall q | InWindow(cells[n], q, span) && (q.row < cell.row || (q.row == cell.row && q.col < cell.col + 1))
      ensures CellJoined(points, tree, n, cells, q, radius, hypot, cos)
    {
      assert q.row == cell.row && q.col == cell.col ==> q == cell;
    }
  }

  lemma NextRow(points: seq<Point>, tree: seq<nat>, n: nat, cells: seq<Cell>, span: int, row: int, col: int, col': int,
                radius: real, hypot: (real, real) -> real, cos: real -> real)
    requires |tree| == |points| == |cells| && n < |points|
    requires Scanned(points, tree, n, cells, span, row, col, radius, hypot, cos)
    requires col == cells[n].col + span + 1 && col' == cells[n].col - span
    ensures Scanned(points, tree, n, cells, span, row + 1, col', radius, hypot, cos)
  {
  }

  method ScanWindow(points: seq<Point>, grid: map<Cell, seq<nat>>, sets: DisjointSets, n: nat, radius: real,
                    hypot: (real, real) -> real, cos: real -> real, ghost links: set<Link>, ghost cells: seq<Cell>)
    requires radius > 0.0 && cells == CellsOf(points, radius / METERS_PER_DEGREE) && GroupsBy(grid, cells, |points|)
    requires links == WindowPairs(points, radius, hypot, cos)
    requires sets.Valid() && sets.parent.Length == |points| && n < |points|
    requires WithinLinks(sets.tree, links)
    modifies sets, sets.parent
    ensures sets.Valid() && WithinLinks(sets.tree, links) && Coarser(old(sets.tree), sets.tree)
    ensures forall l :: l in links && l.lo == n ==> sets.tree[l.lo] == sets.tree[l.hi]
  {
    var colSpan := CellSpan(cos(points[n].latitude));
    ghost var row, col := cells[n].row, cells[n].col - colSpan;
    for dRow := -1 to 2
      invariant sets.Valid() && WithinLinks(sets.tree, links) && Coarser(old(sets.tree), sets.tree)
      invariant Scanned(points, sets.tree, n, cells, colSpan, row + dRow, col, radius, hypot, cos)
    {
      ghost var before := sets.tree;
      ScanRow(points, grid, sets, n, dRow, colSpan, radius, hypot, cos, links, cells);
      CoarserStill(old(sets.tree), before, sets.tree);
      NextRow(points, sets.tree, n, cells, colSpan, row + dRow, cells[n].col + colSpan + 1, col, radius, hypot, cos);
    }
    assert Scanned(points, sets.tree, n, cells, colSpan, row + 2, 0, radius, hypot, cos);
    forall l | l in links && l.lo == n
      ensures sets.tree[l.lo] == sets.tree[l.hi]
    {
      ScanFindsLinks(points, sets.tree, n, cells, radius, hypot, cos, l);
    }
  }

  /** Joins every point to those of its window that are in reach. */
  method JoinAll(points: seq<Point>, grid: map<Cell, seq<nat>>, radius: real, hypot: (real, real) -> real,
                 cos: real -> real)
    returns (sets: DisjointSets)
    requires radius > 0.0 && GroupsBy(grid, CellsOf(points, radius / METERS_PER_DEGREE), |points|)
    ensures fresh(sets) && fresh(sets.parent) && sets.Valid() && sets.parent.Length == |points|
    ensures Follows(sets.tree, WindowPairs(points, radius, hypot, cos))
  {
    ghost var links, cells := WindowPairs(points, radius, hypot, cos), CellsOf(points, radius / METERS_PER_DEGREE);
    sets := new DisjointSets(|points|);
    forall i | 0 <= i < |points|
      ensures Linked(links, i, sets.tree[i])
    {
      LinkedToItself(links, i);
    }
    for n := 0 to |points|
      invariant fresh(sets) && fresh(sets.parent) && sets.Valid() && sets.parent.Length == |points|
      invariant WithinLinks(sets.tree, links)
      invariant forall l :: l in links && l.lo < n ==> sets.tree[l.lo] == sets.tree[l.hi]
    {
      ScanWindow(points, grid, sets, n, radius, hypot, cos, links, cells);
    }
  }

  method GroupByRoot(sets: DisjointSets) returns (groups: map<nat, seq<nat>>)
    requires sets.Valid()
    modifies sets.parent
    ensures GroupsBy(groups, sets.tree, |sets.tree|)
  {
    groups := map[];
    ghost var tree := sets.tree;
    for n := 0 to sets.parent.Length
      invariant sets.Valid() && |tree| == sets.parent.Length && GroupsBy(groups, tree, n)
    {
      var root := sets.Find(n);
      GroupsGrow(groups, tree, n);
      groups := AddTo(groups, root, n);
    }
  }

  /** The large groups, in whatever order the map yields them. */
  method LargeGroups(groups: map<nat, seq<nat>>, minSize: int, ghost tree: seq<nat>) returns (clusters: seq<seq<nat>>)
    requires GroupsBy(groups, tree, |tree|) && minSize >= 1
    ensures exists roots :: LargeTrees(roots, clusters, tree, minSize)
  {
    clusters := [];
    ghost var roots: seq<nat> := [];
    var keys := groups.Keys;
    while keys != {}
      invariant keys <= groups.Keys
      invariant |roots| == |clusters|
      invariant forall a, b :: 0 <= a < b < |roots| ==> roots[a] != roots[b]
      invariant forall a :: 0 <= a < |roots| ==>
        roots[a] in groups && roots[a] !in keys && clusters[a] == groups[roots[a]] && |clusters[a]| >= minSize
      invariant forall root :: root in groups && root !in keys && |groups[root]| >= minSize ==> root in roots
    {
      var root :| root in keys;
      keys := keys - {root};
      var members := groups[root];
      if |members| >= minSize {
        clusters := clusters + [members];
        roots := roots + [root];
      }
    }
    forall a | 0 <= a < |roots|
      ensures roots[a] in tree && clusters[a] == Members(tree, roots[a], |tree|)
    {
      assert Lookup(groups, roots[a]) == clusters[a];
      MembersExact(tree, roots[a], |tree|);
      assert clusters[a][0] in clusters[a];
    }
    forall i | 0 <= i < |tree| && |Members(tree, tree[i], |tree|)| >= minSize
      ensures tree[i] in roots
    {
      assert Lookup(groups, tree[i]) == Members(tree, tree[i], |tree|);
    }
    assert LargeTrees(roots, clusters, tree, minSize);
  }

  /** The clusters are the components of the pairs within the radius that the window shows; where
      no cosine is below its clamp, of all pairs within the radius. */
  method ClusterPoints(points: seq<Point>, radius: real, minSize: int, hypot: (real, real) -> real, cos: real -> real)
    returns (clusters: seq<seq<nat>>)
    requires radius > 0.0 && IsHypot(hypot)
    ensures minSize < 1 ==> clusters == []
    ensures minSize >= 1 ==> IsComponents(clusters, WindowPairs(points, radius, hypot, cos), |points|, minSize)
    ensures minSize >= 1 && (forall p :: p in points ==> Abs(cos(p.latitude)) >= 0.1)
      ==> IsComponents(clusters, AllPairs(points, radius, hypot, cos), |points|, minSize)
  {
    if |points| == 0 || minSize < 1 {
      return [];
    }
    var grid := BuildGrid(points, radius / METERS_PER_DEGREE);
    var sets := JoinAll(points, grid, radius, hypot, cos);
    ghost var links, tree := WindowPairs(points, radius, hypot, cos), sets.tree;
    var groups := GroupByRoot(sets);
    clusters := LargeGroups(groups, minSize, tree);
    ghost var roots :| LargeTrees(roots, clusters, tree, minSize);
    LargeTreesAreComponents(roots, clusters, tree, links, minSize);
    if forall p :: p in points ==> Abs(cos(p.latitude)) >= 0.1 {
      WindowMissesNoPair(points, radius, hypot, cos);
    }
  }
}
