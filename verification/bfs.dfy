/**
 * The flow-field system: a breadth-first search from every cell of a target
 * kind through non-Empty cells, then one direction per cell. The search is
 * proved to compute exactly the shortest distances of FlowField, and the
 * extraction exactly its direction field.
 */
module FlowFieldSystem {
  import opened Grid
  import opened FlowField
  import opened World

  /** The number of entries still holding the sentinel. */
  function CountUnreached(s: seq<int>): (n: nat)
    ensures n <= |s|
  {
    if |s| == 0 then 0 else CountUnreached(s[..|s| - 1]) + (if s[|s| - 1] == UNREACHED then 1 else 0)
  }

  /** Settling one unreached entry lowers the count by one. */
  lemma {:induction false} CountUnreachedSettle(s: seq<int>, i: int, x: int)
    requires 0 <= i < |s| && s[i] == UNREACHED && x != UNREACHED
    ensures CountUnreached(s) >= 1
    ensures CountUnreached(s[i := x]) == CountUnreached(s) - 1
  {
    var t := s[i := x];
    if i < |s| - 1 {
      assert t[..|t| - 1] == s[..|s| - 1][i := x];
      CountUnreachedSettle(s[..|s| - 1], i, x);
    } else {
      assert t[..|t| - 1] == s[..|s| - 1];
    }
  }

  lemma {:induction false} CountUnreachedAll(n: nat)
    ensures CountUnreached(seq(n, _ => UNREACHED)) == n
  {
    if n > 0 {
      assert seq(n, _ => UNREACHED)[..n - 1] == seq(n - 1, _ => UNREACHED);
      CountUnreachedAll(n - 1);
    }
  }

  /**
   * The first k of the directions N, E, S, W out of u are closed: every
   * in-bounds non-Empty neighbour there is at most one step further than u.
   */
  ghost predicate ClosedUpTo(b: Board, dist: seq<int>, u: int, k: int)
    requires b.Valid() && |dist| == b.Size() && 0 <= u < b.Size()
  {
    forall d :: IsOrtho(d) && d < 2 * k && Neighbor(b.w, b.h, u, d) >= 0
                && b.tiles[Neighbor(b.w, b.h, u, d)] != Empty
                ==> dist[Neighbor(b.w, b.h, u, d)] <= dist[u] + 1
  }

  /**
   * What the search keeps true: the queue holds each reached cell exactly
   * once, in nondecreasing distance, the j-th entry at most j steps away;
   * every recorded distance is the length of a real path; and the queue
   * length plus the unreached count is the number of cells.
   */
  ghost predicate Sound(b: Board, target: Tile, dist: seq<int>, q: seq<int>)
    requires b.Valid()
  {
    |dist| == b.Size()
    && (forall j :: 0 <= j < |q| ==> 0 <= q[j] < b.Size())
    && (forall j, m :: 0 <= j < m < |q| ==> q[j] != q[m])
    && (forall v :: 0 <= v < b.Size() ==> (dist[v] != UNREACHED <==> v in q))
    && |q| + CountUnreached(dist) == b.Size()
    && (forall v :: 0 <= v < b.Size() && dist[v] != UNREACHED ==> 0 <= dist[v] && Within(b, target, v, dist[v]))
    && (forall j :: 0 <= j < |q| ==> dist[q[j]] <= j)
    && (forall j, m :: 0 <= j <= m < |q| ==> dist[q[j]] <= dist[q[m]])
  }

  /** A non-Empty neighbour of a cell within k steps is itself within k + 1 steps. */
  lemma StepBack(b: Board, target: Tile, u: int, d: int, k: nat)
    requires b.Valid() && 0 <= u < b.Size() && IsOrtho(d) && Within(b, target, u, k)
    requires Neighbor(b.w, b.h, u, d) >= 0 && b.tiles[Neighbor(b.w, b.h, u, d)] != Empty
    ensures Within(b, target, Neighbor(b.w, b.h, u, d), k + 1)
  {
    var n := Neighbor(b.w, b.h, u, d);
    NeighborSymmetric(b.w, b.h, u, d);
    assert StepWithin(b, target, n, Opposite(d), k);
    assert NbrWithin(b, target, n, k);
  }

  /**
   * Once every target has distance 0 and every reached cell is closed, no
   * cell within k steps of a target has a recorded distance above k.
   */
  lemma {:induction false} LowerBound(b: Board, target: Tile, dist: seq<int>, v: int, k: nat)
    requires b.Valid() && |dist| == b.Size() && 0 <= v < b.Size() && k <= b.Size()
    requires forall x :: 0 <= x < b.Size() && b.tiles[x] == target ==> dist[x] == 0
    requires forall x :: 0 <= x < b.Size() && dist[x] != UNREACHED ==> ClosedUpTo(b, dist, x, 4)
    requires Within(b, target, v, k)
    ensures dist[v] <= k
    decreases k
  {
    if b.tiles[v] == target {
    } else if Within(b, target, v, k - 1) {
      LowerBound(b, target, dist, v, k - 1);
    } else {
      var d := PickStep(b, target, v, k - 1);
      var n := Neighbor(b.w, b.h, v, d);
      LowerBound(b, target, dist, n, k - 1);
      NeighborSymmetric(b.w, b.h, v, d);
      assert ClosedUpTo(b, dist, n, 4);
    }
  }

  /** A closed, sound search has found exactly the shortest distances. */
  lemma SearchComplete(b: Board, target: Tile, dist: seq<int>, q: seq<int>)
    requires b.Valid() && Sound(b, target, dist, q)
    requires forall x :: 0 <= x < b.Size() && b.tiles[x] == target ==> dist[x] == 0
    requires forall x :: 0 <= x < b.Size() && dist[x] != UNREACHED ==> ClosedUpTo(b, dist, x, 4)
    ensures dist == Distances(b, target)
  {
    forall v | 0 <= v < b.Size() ensures dist[v] == ShortestDist(b, target, v) {
      var s := ShortestDist(b, target, v);
      if dist[v] != UNREACHED {
        DistLeast(b, target, v, dist[v]);
      }
      if s != UNREACHED {
        LowerBound(b, target, dist, v, s);
      }
    }
  }

  /**
   * Appending an unreached cell at a distance no smaller than any queued one
   * and no larger than the queue length, along a real path, keeps the search
   * sound.
   */
  lemma SoundAppend(b: Board, target: Tile, dist: seq<int>, q: seq<int>, nb: int, x: int)
    requires b.Valid() && Sound(b, target, dist, q)
    requires 0 <= nb < b.Size() && dist[nb] == UNREACHED
    requires 0 <= x <= |q| && Within(b, target, nb, x)
    requires forall j :: 0 <= j < |q| ==> dist[q[j]] <= x
    ensures Sound(b, target, dist[nb := x], q + [nb])
  {
    CountUnreachedSettle(dist, nb, x);
    assert nb !in q;
    AppendMembers(dist, q, nb, x);
    AppendOrder(dist, q, nb, x);
  }

  /** The appended cell is new, in range, and the only newly finite entry. */
  lemma AppendMembers(dist: seq<int>, q: seq<int>, nb: int, x: int)
    requires 0 <= nb < |dist| && nb !in q && x != UNREACHED
    requires forall j :: 0 <= j < |q| ==> 0 <= q[j] < |dist|
    requires forall j, m :: 0 <= j < m < |q| ==> q[j] != q[m]
    requires forall v :: 0 <= v < |dist| ==> (dist[v] != UNREACHED <==> v in q)
    ensures forall j :: 0 <= j < |q| + 1 ==> 0 <= (q + [nb])[j] < |dist|
    ensures forall j, m :: 0 <= j < m < |q| + 1 ==> (q + [nb])[j] != (q + [nb])[m]
    ensures forall v :: 0 <= v < |dist| ==> (dist[nb := x][v] != UNREACHED <==> v in q + [nb])
  {
    var q' := q + [nb];
    forall j, m | 0 <= j < m < |q'| ensures q'[j] != q'[m] {
      if m < |q| {
        assert q'[j] == q[j] && q'[m] == q[m];
      } else {
        assert q'[j] == q[j] && q'[m] == nb;
      }
    }
    forall v | 0 <= v < |dist| ensures dist[nb := x][v] != UNREACHED <==> v in q' {
      assert v in q' <==> v in q || v == nb;
    }
  }

  /** Appending at a distance no smaller than any queued one keeps the queue ordered and each entry within its position. */
  lemma AppendOrder(dist: seq<int>, q: seq<int>, nb: int, x: int)
    requires 0 <= nb < |dist| && nb !in q && 0 <= x <= |q|
    requires forall j :: 0 <= j < |q| ==> 0 <= q[j] < |dist| && dist[q[j]] <= x && dist[q[j]] <= j
    requires forall j, m :: 0 <= j <= m < |q| ==> dist[q[j]] <= dist[q[m]]
    ensures forall j :: 0 <= j < |q| + 1 ==> dist[nb := x][(q + [nb])[j]] <= j
    ensures forall j, m :: 0 <= j <= m < |q| + 1 ==> dist[nb := x][(q + [nb])[j]] <= dist[nb := x][(q + [nb])[m]]
  {
    var dist', q' := dist[nb := x], q + [nb];
    forall j | 0 <= j < |q| ensures dist'[q'[j]] == dist[q[j]] {
      assert q'[j] == q[j] && q[j] != nb;
    }
    forall j, m | 0 <= j <= m < |q'| ensures dist'[q'[j]] <= dist'[q'[m]] {
      if m < |q| {
        assert dist[q[j]] <= dist[q[m]];
      }
    }
  }

  ghost predicate TargetsSeeded(b: Board, target: Tile, dist: seq<int>)
    requires b.Valid() && |dist| == b.Size()
  {
    forall x :: 0 <= x < b.Size() && b.tiles[x] == target ==> dist[x] == 0
  }

  /**
   * The outer loop's state: cells before `head` are closed, and the queue
   * spans at most one distance beyond the next cell to dequeue.
   */
  ghost predicate Searching(b: Board, target: Tile, dist: seq<int>, q: seq<int>, head: int)
    requires b.Valid()
  {
    Sound(b, target, dist, q) && TargetsSeeded(b, target, dist)
    && 0 <= head <= |q|
    && (forall j :: 0 <= j < head ==> ClosedUpTo(b, dist, q[j], 4))
    && (head < |q| ==> forall j :: 0 <= j < |q| ==> dist[q[j]] <= dist[q[head]] + 1)
  }

  /**
   * The inner loop's state while expanding u = q[head - 1]: the first k
   * directions of u are closed and no queued cell is more than one step
   * beyond u.
   */
  ghost predicate Expanding(b: Board, target: Tile, dist: seq<int>, q: seq<int>, head: int, k: int)
    requires b.Valid()
  {
    Sound(b, target, dist, q) && TargetsSeeded(b, target, dist)
    && 1 <= head <= |q| && 0 <= k <= 4
    && (forall j :: 0 <= j < head - 1 ==> ClosedUpTo(b, dist, q[j], 4))
    && ClosedUpTo(b, dist, q[head - 1], k)
    && (forall j :: 0 <= j < |q| ==> dist[q[j]] <= dist[q[head - 1]] + 1)
  }

  lemma Dequeue(b: Board, target: Tile, dist: seq<int>, q: seq<int>, head: int)
    requires b.Valid() && Searching(b, target, dist, q, head) && head < |q|
    ensures Expanding(b, target, dist, q, head + 1, 0)
  {
  }

  lemma Expanded(b: Board, target: Tile, dist: seq<int>, q: seq<int>, head: int)
    requires b.Valid() && Expanding(b, target, dist, q, head, 4)
    ensures Searching(b, target, dist, q, head)
  {
    if head < |q| {
      assert dist[q[head - 1]] <= dist[q[head]];
    }
  }

  /** Looking at a neighbour that is not relaxed closes that direction as it stands. */
  lemma SkipKeeps(b: Board, target: Tile, dist: seq<int>, q: seq<int>, head: int, k: int)
    requires b.Valid() && Expanding(b, target, dist, q, head, k) && k < 4
    requires var nb := Neighbor(b.w, b.h, q[head - 1], ORTHO[k]);
             !(nb >= 0 && b.tiles[nb] != Empty && dist[nb] > dist[q[head - 1]] + 1)
    ensures Expanding(b, target, dist, q, head, k + 1)
  {
  }

  /** Settling a cell that no closed direction of u reaches keeps those directions closed, now for k + 1 when the new cell is u's k-th neighbour. */
  lemma SettleKeepsClosed(b: Board, dist: seq<int>, u: int, k: int, nb: int, x: int)
    requires b.Valid() && |dist| == b.Size() && 0 <= u < b.Size() && 0 <= nb < b.Size() && 0 <= k <= 4
    requires ClosedUpTo(b, dist, u, k) && dist[nb] == UNREACHED && dist[u] + 1 < UNREACHED && u != nb
    requires k < 4 ==> nb == Neighbor(b.w, b.h, u, ORTHO[k]) && x == dist[u] + 1
    ensures ClosedUpTo(b, dist[nb := x], u, if k < 4 then k + 1 else k)
  {
    if k < 4 {
      assert ORTHO[k] == 2 * k + 1;
    }
  }

  /** Relaxing a neighbour: it was unreached, gets u's distance plus one, and joins the queue. */
  lemma RelaxKeeps(b: Board, target: Tile, dist: seq<int>, q: seq<int>, head: int, k: int, u: int, nb: int)
    requires b.Valid() && Expanding(b, target, dist, q, head, k) && k < 4 && u == q[head - 1]
    requires nb == Neighbor(b.w, b.h, u, ORTHO[k])
    requires nb >= 0 && b.tiles[nb] != Empty && dist[nb] > dist[u] + 1
    ensures Expanding(b, target, dist[nb := dist[u] + 1], q + [nb], head, k + 1)
  {
    var du := dist[u];
    RelaxTarget(b, target, dist, q, head, k, u, nb);
    SoundAppend(b, target, dist, q, nb, du + 1);
    RelaxClosedBefore(b, target, dist, q, head, nb, du + 1);
    SettleKeepsClosed(b, dist, u, k, nb, du + 1);
    RelaxBound(b, target, dist, q, head, nb, du + 1);
  }

  /** The neighbour being relaxed is unreached, one step beyond u along a real path, and no queued cell is further. */
  lemma RelaxTarget(b: Board, target: Tile, dist: seq<int>, q: seq<int>, head: int, k: int, u: int, nb: int)
    requires b.Valid() && Expanding(b, target, dist, q, head, k) && k < 4 && u == q[head - 1]
    requires nb == Neighbor(b.w, b.h, u, ORTHO[k])
    requires nb >= 0 && b.tiles[nb] != Empty && dist[nb] > dist[u] + 1
    ensures 0 <= nb < b.Size() && nb !in q && dist[nb] == UNREACHED && b.tiles[nb] != target
    ensures 0 <= dist[u] + 1 <= |q| && Within(b, target, nb, dist[u] + 1)
    ensures dist[u] + 1 < UNREACHED && u != nb
  {
    assert nb !in q;
    StepBack(b, target, u, ORTHO[k], dist[u]);
    assert dist[u] <= head - 1;
  }

  /** Settling an unreached cell leaves the cells dequeued before u closed. */
  lemma RelaxClosedBefore(b: Board, target: Tile, dist: seq<int>, q: seq<int>, head: int, nb: int, x: int)
    requires b.Valid() && Sound(b, target, dist, q) && 1 <= head <= |q|
    requires 0 <= nb < b.Size() && dist[nb] == UNREACHED
    requires forall j :: 0 <= j < head - 1 ==> ClosedUpTo(b, dist, q[j], 4)
    ensures forall j :: 0 <= j < head - 1 ==> ClosedUpTo(b, dist[nb := x], (q + [nb])[j], 4)
  {
    forall j | 0 <= j < head - 1 ensures ClosedUpTo(b, dist[nb := x], (q + [nb])[j], 4) {
      assert (q + [nb])[j] == q[j] && dist[q[j]] <= j && q[j] != nb;
      SettleKeepsClosed(b, dist, q[j], 4, nb, x);
    }
  }

  /** The new entry at u's distance plus one keeps every queued distance within one step of u. */
  lemma RelaxBound(b: Board, target: Tile, dist: seq<int>, q: seq<int>, head: int, nb: int, x: int)
    requires b.Valid() && |dist| == b.Size() && 1 <= head <= |q| && 0 <= nb < b.Size()
    requires forall j :: 0 <= j < |q| ==> 0 <= q[j] < b.Size() && q[j] != nb
    requires x == dist[q[head - 1]] + 1
    requires forall j :: 0 <= j < |q| ==> dist[q[j]] <= dist[q[head - 1]] + 1
    ensures forall j :: 0 <= j < |q| + 1 ==> dist[nb := x][(q + [nb])[j]] <= dist[nb := x][(q + [nb])[head - 1]] + 1
  {
    forall j | 0 <= j < |q| + 1 ensures dist[nb := x][(q + [nb])[j]] <= dist[nb := x][(q + [nb])[head - 1]] + 1 {
      if j < |q| {
        assert (q + [nb])[j] == q[j];
      }
    }
  }

  /** The seeding loop: every target cell at distance 0, queued in index order. */
  method Seed(b: Board, target: Tile) returns (dist: seq<int>, q: seq<int>)
    requires b.Valid()
    ensures Searching(b, target, dist, q, 0)
    ensures forall v :: 0 <= v < b.Size() ==> (v in q <==> b.tiles[v] == target)
  {
    var n := b.Size();
    dist := seq(n, _ => UNREACHED);
    q := [];
    CountUnreachedAll(n);
    var i := 0;
    while i < n
      invariant 0 <= i <= n
      invariant Seeded(b, target, dist, q, i)
    {
      if b.tiles[i] == target {
        SeedAdd(b, target, dist, q, i);
        dist := dist[i := 0];
        q := q + [i];
      }
      i := i + 1;
    }
    SeedDone(b, target, dist, q);
  }

  /** The seeding loop's state before cell i: exactly the target cells below i are queued, at distance 0. */
  ghost predicate Seeded(b: Board, target: Tile, dist: seq<int>, q: seq<int>, i: int)
    requires b.Valid()
  {
    Sound(b, target, dist, q)
    && (forall x :: 0 <= x < b.Size() ==> (dist[x] != UNREACHED <==> x < i && b.tiles[x] == target))
    && (forall x :: 0 <= x < b.Size() && dist[x] != UNREACHED ==> dist[x] == 0)
  }

  lemma SeedAdd(b: Board, target: Tile, dist: seq<int>, q: seq<int>, i: int)
    requires b.Valid() && 0 <= i < b.Size() && b.tiles[i] == target && Seeded(b, target, dist, q, i)
    ensures Seeded(b, target, dist[i := 0], q + [i], i + 1)
  {
    assert forall j :: 0 <= j < |q| ==> dist[q[j]] <= 0;
    SoundAppend(b, target, dist, q, i, 0);
  }

  lemma SeedDone(b: Board, target: Tile, dist: seq<int>, q: seq<int>)
    requires b.Valid() && Seeded(b, target, dist, q, b.Size())
    ensures Searching(b, target, dist, q, 0)
    ensures forall v :: 0 <= v < b.Size() ==> (v in q <==> b.tiles[v] == target)
  {
  }

  /**
   * The breadth-first search of generateField: seed every target cell at
   * distance 0, then relax the four orthogonal neighbours of each dequeued
   * cell. The distances are the shortest ones; the queue, which generateField
   * keeps in a buffer of one slot per cell, never needs more than that and
   * ends holding every reachable cell once, nearest first.
   */
  method Settle(b: Board, target: Tile) returns (dist: seq<int>, q: seq<int>)
    requires b.Valid()
    ensures dist == Distances(b, target)
    ensures |q| <= b.Size()
    ensures forall v :: 0 <= v < b.Size() ==> (ShortestDist(b, target, v) != UNREACHED <==> v in q)
    ensures forall j, m :: 0 <= j < m < |q| ==> q[j] != q[m]
    ensures forall j :: 0 <= j < |q| ==> 0 <= q[j] < b.Size()
    ensures forall j, m :: 0 <= j <= m < |q| ==> dist[q[j]] <= dist[q[m]]
  {
    dist, q := Seed(b, target);
    var head := 0;
    while head < |q|
      invariant Searching(b, target, dist, q, head)
      decreases b.Size() - head
    {
      dist, q := Expand(b, target, dist, q, head);
      head := head + 1;
    }
    Finished(b, target, dist, q);
  }

  /** Dequeue q[head] and relax its four orthogonal neighbours in N, E, S, W order. */
  method Expand(b: Board, target: Tile, dist0: seq<int>, q0: seq<int>, head0: int) returns (dist: seq<int>, q: seq<int>)
    requires b.Valid() && Searching(b, target, dist0, q0, head0) && head0 < |q0|
    ensures Searching(b, target, dist, q, head0 + 1)
    ensures |q| <= b.Size()
  {
    dist, q := dist0, q0;
    Dequeue(b, target, dist, q, head0);
    var u := q[head0];
    var head := head0 + 1;
    var k := 0;
    while k < 4
      invariant Expanding(b, target, dist, q, head, k)
      invariant q[head - 1] == u
    {
      dist, q := Visit(b, target, dist, q, head, k, u);
      k := k + 1;
    }
    Expanded(b, target, dist, q, head);
  }

  /** Look at u's k-th orthogonal neighbour: an unreached non-Empty one gets u's distance plus one and is queued. */
  method Visit(b: Board, target: Tile, dist0: seq<int>, q0: seq<int>, head: int, k: int, u: int)
      returns (dist: seq<int>, q: seq<int>)
    requires b.Valid() && Expanding(b, target, dist0, q0, head, k) && k < 4 && u == q0[head - 1]
    ensures Expanding(b, target, dist, q, head, k + 1) && q[head - 1] == u
  {
    dist, q := dist0, q0;
    var nb := Neighbor(b.w, b.h, u, ORTHO[k]);
    if nb >= 0 && b.tiles[nb] != Empty && dist[nb] > dist[u] + 1 {
      RelaxKeeps(b, target, dist, q, head, k, u, nb);
      dist := dist[nb := dist[u] + 1];
      q := q + [nb];
    } else {
      SkipKeeps(b, target, dist, q, head, k);
    }
  }

  /** An exhausted queue: every reached cell is closed, so the search has found the shortest distances. */
  lemma Finished(b: Board, target: Tile, dist: seq<int>, q: seq<int>)
    requires b.Valid() && Searching(b, target, dist, q, |q|)
    ensures dist == Distances(b, target)
    ensures |q| <= b.Size()
    ensures forall v :: 0 <= v < b.Size() ==> (ShortestDist(b, target, v) != UNREACHED <==> v in q)
    ensures forall j, m :: 0 <= j <= m < |q| ==> dist[q[j]] <= dist[q[m]]
  {
    SearchComplete(b, target, dist, q);
  }

  /** The direction scan of one cell: the first strictly nearest of N, E, S, W, or 0. */
  method ScanCell(b: Board, dist: seq<int>, i: int) returns (dir: int)
    requires b.Valid() && |dist| == b.Size() && 0 <= i < b.Size()
    ensures dir == BestDir(b, dist, i)
  {
    var bestDist := dist[i];
    dir := 0;
    var k := 0;
    while k < 4
      invariant 0 <= k <= 4
      invariant (bestDist, dir) == Scan(b, dist, i, k)
    {
      var d := ORTHO[k];
      var nb := Neighbor(b.w, b.h, i, d);
      if nb >= 0 && dist[nb] < bestDist {
        bestDist, dir := dist[nb], d;
      }
      k := k + 1;
    }
  }

  /** The extraction loop: one direction per cell from a distance grid. */
  method Extract(b: Board, target: Tile, dist: seq<int>) returns (field: seq<int>)
    requires b.Valid() && |dist| == b.Size()
    ensures field == Directions(b, target, dist)
  {
    var n := b.Size();
    field := [];
    var i := 0;
    while i < n
      invariant 0 <= i <= n && |field| == i
      invariant forall j :: 0 <= j < i ==> field[j] == FieldAt(b, target, dist, j)
    {
      var dir := 0;
      if dist[i] != UNREACHED && b.tiles[i] != target {
        dir := ScanCell(b, dist, i);
      }
      field := field + [dir];
      i := i + 1;
    }
  }

  /**
   * generateField: the search, then one direction per cell — 0 on unreached
   * and target cells, otherwise the first of N, E, S, W whose neighbour is
   * strictly nearest. The result is the reference direction field.
   */
  method GenerateField(b: Board, target: Tile) returns (field: seq<int>)
    requires b.Valid()
    ensures field == FlowFieldOf(b, target)
  {
    var dist, _ := Settle(b, target);
    field := Extract(b, target, dist);
  }

  /**
   * updateFields: recompute the fields towards Industrial, Residential and
   * Commercial cells. Afterwards the fields match the tiles, nothing else
   * changes, and a world whose fields were already current is left as it was.
   */
  method UpdateFields(w: World) returns (r: World)
    requires w.WellFormed()
    ensures r.WellFormed() && FieldsCurrent(r)
    ensures r == w.(toWork := r.toWork, toHome := r.toHome, toShop := r.toShop)
    ensures FieldsCurrent(w) ==> r == w
    ensures CountConsistent(w) && w.goods >= 0 && LevelsBounded(w) ==> Consistent(r)
  {
    var work := GenerateField(w.board, Industrial);
    var home := GenerateField(w.board, Residential);
    var shop := GenerateField(w.board, Commercial);
    r := w.(toWork := work, toHome := home, toShop := shop);
  }
}
