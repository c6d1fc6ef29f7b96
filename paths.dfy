/**
 * The specification side of model.py's `find_path`: what the search looks
 * for, the entries of its open list, the shape of the `came_from` and
 * `cost_so_far` tables it keeps, the path `reconstruct_path` reads out of
 * them, and the measure that shows the search ends.
 */
module Paths {
  import opened Wrappers
  import opened Grid

  /**
   * What `find_path` looks for: a Wood or Gold tile, the tile of a given Town
   * Center (`target_building`, possibly absent), or a tile holding a Farm.
   */
  datatype Goal = WoodGoal | GoldGoal | TownCenterGoal(target: Building?) | FarmGoal

  /** The 8 moves `find_path` tries from a tile, in its order. */
  const PathDirections: seq<Cell> := [(-1, 0), (1, 0), (0, -1), (0, 1), (-1, -1), (1, 1), (-1, 1), (1, -1)]

  /** The tile one move `i` away from `c`. */
  function Neighbour(c: Cell, i: int): Cell
    requires 0 <= i < |PathDirections|
  {
    (c.0 + PathDirections[i].0, c.1 + PathDirections[i].1)
  }

  /** Which of the 8 moves leads from `c` to `d`; 8 when none does. */
  function DirOf(c: Cell, d: Cell): (i: int)
    ensures 0 <= i <= |PathDirections|
    ensures i < |PathDirections| <==> Adjacent(c, d)
    ensures i < |PathDirections| ==> Neighbour(c, i) == d
  {
    var off := (d.0 - c.0, d.1 - c.1);
    if off == PathDirections[0] then 0
    else if off == PathDirections[1] then 1
    else if off == PathDirections[2] then 2
    else if off == PathDirections[3] then 3
    else if off == PathDirections[4] then 4
    else if off == PathDirections[5] then 5
    else if off == PathDirections[6] then 6
    else if off == PathDirections[7] then 7
    else 8
  }

  /** Move `i` from `c` lands on a neighbour of `c`, and no two moves land on the same tile. */
  lemma NeighbourDir(c: Cell, i: int)
    requires 0 <= i < |PathDirections|
    ensures Adjacent(c, Neighbour(c, i))
    ensures DirOf(c, Neighbour(c, i)) == i
  {
  }

  /** `heuristic`: Manhattan distance. */
  function Manhattan(a: Cell, b: Cell): (d: int)
    ensures d >= 0
    ensures d == 0 <==> a == b
  {
    (if a.0 >= b.0 then a.0 - b.0 else b.0 - a.0) + (if a.1 >= b.1 then a.1 - b.1 else b.1 - a.1)
  }

  /**
   * The target test `find_path` applies to a tile taken off the open list.
   * A Farm is recognised by the building on the tile, Wood and Gold by the
   * tile's resource, the Town Center by the coordinates of the building asked for.
   */
  predicate IsGoal(m: Map, goal: Goal, c: Cell)
    reads m.grid
    requires m.Valid() && m.InBounds(c)
  {
    match goal
    case WoodGoal => m.At(c).resource == Some(Wood)
    case GoldGoal => m.At(c).resource == Some(Gold)
    case TownCenterGoal(t) => t != null && c == (t.x, t.y)
    case FarmGoal => m.At(c).building != null && m.At(c).building.kind == Farm
  }

  /** A heap entry `(priority, (x, y))`. */
  datatype Entry = Entry(priority: int, cell: Cell)

  /** Python's order on `(priority, (x, y))` tuples: by priority, then `x`, then `y`. */
  predicate Below(a: Entry, b: Entry)
  {
    a.priority < b.priority
    || (a.priority == b.priority && (a.cell.0 < b.cell.0 || (a.cell.0 == b.cell.0 && a.cell.1 < b.cell.1)))
  }

  /** Some entry of the open list is for tile `c`. */
  predicate Queued(open: seq<Entry>, c: Cell)
  {
    exists k :: 0 <= k < |open| && open[k].cell == c
  }

  /**
   * The tables of the search: every tile reached is on the map, has a cost
   * below the number of tiles reached, and, except `start` (cost 0), was
   * reached from a neighbour of lower cost that is not a target.
   */
  ghost predicate SearchTree(m: Map, goal: Goal, start: Cell, cost: map<Cell, int>, cameFrom: map<Cell, Cell>)
    reads m.grid
    requires m.Valid()
  {
    TreeRoot(start, cost, cameFrom) && TreeCosts(m, cost) && TreeLinks(m, goal, cost, cameFrom)
  }

  /** `start` is reached at cost 0 from nowhere; every other tile reached has a predecessor. */
  ghost predicate TreeRoot(start: Cell, cost: map<Cell, int>, cameFrom: map<Cell, Cell>)
  {
    start in cost && cost[start] == 0 && start !in cameFrom && (forall c :: c in cost <==> c == start || c in cameFrom)
  }

  /** Every tile reached is on the map at a cost below the number of tiles reached. */
  ghost predicate TreeCosts(m: Map, cost: map<Cell, int>)
  {
    forall c :: c in cost ==> m.InBounds(c) && 0 <= cost[c] < |cost|
  }

  /** Every predecessor is a reached neighbour of lower cost, on the map and not a target. */
  ghost predicate TreeLinks(m: Map, goal: Goal, cost: map<Cell, int>, cameFrom: map<Cell, Cell>)
    reads m.grid
    requires m.Valid()
  {
    forall c :: c in cameFrom ==>
      c in cost && cameFrom[c] in cost && Adjacent(cameFrom[c], c) && cost[cameFrom[c]] < cost[c]
      && m.InBounds(cameFrom[c]) && !IsGoal(m, goal, cameFrom[c])
  }

  /** Following `cameFrom` strictly lowers a non-negative cost, so it cannot cycle. */
  ghost predicate Descending(cameFrom: map<Cell, Cell>, cost: map<Cell, int>)
  {
    forall c :: c in cameFrom ==> c in cost && cameFrom[c] in cost && 0 <= cost[cameFrom[c]] < cost[c]
  }

  lemma TreeDescends(m: Map, goal: Goal, start: Cell, cost: map<Cell, int>, cameFrom: map<Cell, Cell>)
    requires m.Valid() && SearchTree(m, goal, start, cost, cameFrom)
    ensures Descending(cameFrom, cost)
  {
  }

  /** The chain of `cameFrom` links ending at `c`, first link first, the root left out. */
  ghost function ChainTo(cameFrom: map<Cell, Cell>, cost: map<Cell, int>, c: Cell): seq<Cell>
    requires Descending(cameFrom, cost) && c in cost
    decreases cost[c]
  {
    if c in cameFrom then ChainTo(cameFrom, cost, cameFrom[c]) + [c] else []
  }

  /**
   * `p` is empty for `start`; otherwise it begins next to `start`, steps
   * between neighbouring tiles on the map through links of `cameFrom`, ends
   * at `c`, passes only tiles that are not targets before `c`, and never
   * visits `start`.
   */
  ghost predicate ChainShaped(m: Map, goal: Goal, start: Cell, cameFrom: map<Cell, Cell>, c: Cell, p: seq<Cell>)
    reads m.grid
    requires m.Valid()
  {
    (p == [] <==> c == start)
    && (p != [] ==> p[|p| - 1] == c && Adjacent(start, p[0]))
    && (forall i :: 0 <= i < |p| ==> p[i] in cameFrom && m.InBounds(p[i]) && p[i] != start)
    && (forall i :: 0 <= i < |p| - 1 ==> Adjacent(p[i], p[i + 1]) && !IsGoal(m, goal, p[i]))
  }

  /**
   * The path `reconstruct_path` reads out of a search tree: empty for
   * `start`; otherwise it begins next to `start`, steps between neighbouring
   * tiles on the map, ends at `c`, passes only tiles that are not targets
   * before `c`, and never visits `start`.
   */
  lemma {:induction false} ChainShape(m: Map, goal: Goal, start: Cell, cost: map<Cell, int>, cameFrom: map<Cell, Cell>, c: Cell)
    requires m.Valid() && SearchTree(m, goal, start, cost, cameFrom)
    requires c in cost
    ensures Descending(cameFrom, cost)
    ensures ChainShaped(m, goal, start, cameFrom, c, ChainTo(cameFrom, cost, c))
    decreases cost[c]
  {
    TreeDescends(m, goal, start, cost, cameFrom);
    var p := ChainTo(cameFrom, cost, c);
    if c in cameFrom {
      var b := cameFrom[c];
      ChainShape(m, goal, start, cost, cameFrom, b);
      var q := ChainTo(cameFrom, cost, b);
      assert p == q + [c];
      assert Adjacent(b, c) && !IsGoal(m, goal, b) && m.InBounds(c) && c != start;
      forall i | 0 <= i < |p|
        ensures p[i] in cameFrom && m.InBounds(p[i]) && p[i] != start
      {
        if i < |q| {
          assert p[i] == q[i];
        }
      }
      forall i | 0 <= i < |p| - 1
        ensures Adjacent(p[i], p[i + 1]) && !IsGoal(m, goal, p[i])
      {
        assert p[i] == q[i];
        if i < |q| - 1 {
          assert p[i + 1] == q[i + 1];
        }
      }
    } else {
      assert c == start;
    }
  }

  /** Every tile of `p` is reached at a cost of at most `top`, and costs rise strictly along `p`. */
  ghost predicate Rising(p: seq<Cell>, cost: map<Cell, int>, top: int)
  {
    (forall i :: 0 <= i < |p| ==> p[i] in cost && cost[p[i]] <= top)
    && (forall i, j :: 0 <= i < j < |p| ==> cost[p[i]] < cost[p[j]])
  }

  /**
   * Costs rise strictly along the chain to `c`, none above `c`'s own, so
   * the chain visits no tile twice.
   */
  lemma {:induction false} ChainCosts(cameFrom: map<Cell, Cell>, cost: map<Cell, int>, c: Cell)
    requires Descending(cameFrom, cost) && c in cost
    ensures Rising(ChainTo(cameFrom, cost, c), cost, cost[c])
    decreases cost[c]
  {
    if c in cameFrom {
      var b := cameFrom[c];
      ChainCosts(cameFrom, cost, b);
      var p, q := ChainTo(cameFrom, cost, c), ChainTo(cameFrom, cost, b);
      assert p == q + [c];
      assert cost[b] < cost[c];
      forall i | 0 <= i < |p|
        ensures p[i] in cost && cost[p[i]] <= cost[c]
      {
        if i < |q| {
          assert p[i] == q[i] && cost[q[i]] <= cost[b];
        }
      }
      forall i, j | 0 <= i < j < |p|
        ensures cost[p[i]] < cost[p[j]]
      {
        assert p[i] == q[i] && cost[q[i]] <= cost[b];
        if j < |q| {
          assert p[j] == q[j];
        }
      }
    }
  }

  /** `list.reverse()`. */
  function Reversed<T>(s: seq<T>): (r: seq<T>)
    ensures |r| == |s|
    ensures forall i :: 0 <= i < |s| ==> r[i] == s[|s| - 1 - i]
  {
    if s == [] then [] else [s[|s| - 1]] + Reversed(s[..|s| - 1])
  }

  /** Reversing after appending puts the new element first. */
  lemma ReversedSnoc<T>(s: seq<T>, x: T)
    ensures Reversed(s + [x]) == [x] + Reversed(s)
  {
    assert (s + [x])[..|s|] == s;
  }

  /** `c` has been taken off the open list and found neither a target nor with a neighbour unreached. */
  ghost predicate Expanded(m: Map, goal: Goal, cost: map<Cell, int>, c: Cell)
    reads m.grid
    requires m.Valid() && m.InBounds(c)
  {
    !IsGoal(m, goal, c)
    && forall i :: 0 <= i < |PathDirections| && m.InBounds(Neighbour(c, i)) ==> Neighbour(c, i) in cost
  }

  /** Every neighbour of `c` that lies on the map is in `reached`. */
  ghost predicate NeighboursIn(m: Map, reached: set<Cell>, c: Cell)
  {
    forall i :: 0 <= i < |PathDirections| && m.InBounds(Neighbour(c, i)) ==> Neighbour(c, i) in reached
  }

  /** Closed under moves: every tile of `reached` has all its neighbours on the map in `reached`. */
  ghost predicate Closed(m: Map, reached: set<Cell>)
  {
    forall c :: c in reached ==> NeighboursIn(m, reached, c)
  }

  function Sign(n: int): int
  {
    if n > 0 then 1 else if n < 0 then -1 else 0
  }

  /** A set of tiles closed under moves that holds one tile of the map holds all of them. */
  lemma {:induction false} ClosedReachesAll(m: Map, reached: set<Cell>, c: Cell, t: Cell)
    requires Closed(m, reached) && c in reached
    requires m.InBounds(c) && m.InBounds(t)
    ensures t in reached
    decreases Manhattan(c, t)
  {
    if c != t {
      var step := (Sign(t.0 - c.0), Sign(t.1 - c.1));
      var i := DirOf((0, 0), step);
      assert Adjacent((0, 0), step);
      assert Neighbour(c, i) == (c.0 + step.0, c.1 + step.1);
      assert m.InBounds(Neighbour(c, i));
      ClosedReachesAll(m, reached, Neighbour(c, i), t);
    }
  }

  /** The tiles of row `y` left of column `w`. */
  ghost function RowCells(y: int, w: nat): set<Cell>
  {
    if w == 0 then {} else RowCells(y, w - 1) + {(w - 1, y)}
  }

  lemma {:induction false} RowCellsMembers(y: int, w: nat)
    ensures forall c :: c in RowCells(y, w) <==> 0 <= c.0 < w && c.1 == y
  {
    if w > 0 {
      RowCellsMembers(y, w - 1);
    }
  }

  lemma {:induction false} RowCellsSize(y: int, w: nat)
    ensures |RowCells(y, w)| == w
  {
    if w > 0 {
      RowCellsSize(y, w - 1);
      RowCellsMembers(y, w - 1);
      assert (w - 1, y) !in RowCells(y, w - 1);
    }
  }

  /** The tiles of a `w` by `h` map. */
  ghost function GridCells(w: nat, h: nat): set<Cell>
  {
    if h == 0 then {} else GridCells(w, h - 1) + RowCells(h - 1, w)
  }

  lemma {:induction false} GridCellsMembers(w: nat, h: nat)
    ensures forall c :: c in GridCells(w, h) <==> 0 <= c.0 < w && 0 <= c.1 < h
  {
    if h > 0 {
      GridCellsMembers(w, h - 1);
      RowCellsMembers(h - 1, w);
    }
  }

  lemma {:induction false} GridCellsSize(w: nat, h: nat)
    ensures |GridCells(w, h)| == w * h
  {
    if h > 0 {
      GridCellsSize(w, h - 1);
      RowCellsSize(h - 1, w);
      LastRowIsNew(w, h - 1);
      DisjointUnionSize(GridCells(w, h - 1), RowCells(h - 1, w));
      MulStep(w, h);
    }
  }

  /** Row `h` is not part of the first `h` rows. */
  lemma LastRowIsNew(w: nat, h: nat)
    ensures GridCells(w, h) !! RowCells(h, w)
  {
    GridCellsMembers(w, h);
    RowCellsMembers(h, w);
  }

  lemma DisjointUnionSize<T>(a: set<T>, b: set<T>)
    requires a !! b
    ensures |a + b| == |a| + |b|
  {
  }

  lemma MulStep(w: nat, h: nat)
    requires h > 0
    ensures w * h == w * (h - 1) + w
  {
  }

  /** The number of tiles on the map. */
  function Area(m: Map): nat
  {
    m.width * m.height
  }

  /** At most `width * height` distinct tiles lie on a map. */
  lemma OnMapBound(m: Map, tiles: set<Cell>)
    requires forall c :: c in tiles ==> m.InBounds(c)
    ensures |tiles| <= Area(m)
  {
    GridCellsMembers(m.width, m.height);
    GridCellsSize(m.width, m.height);
    assert tiles <= GridCells(m.width, m.height);
    SubsetSize(tiles, GridCells(m.width, m.height));
  }

  lemma {:induction false} SubsetSize<T>(a: set<T>, b: set<T>)
    requires a <= b
    ensures |a| <= |b|
    decreases |b|
  {
    if a != {} {
      var x :| x in a;
      SubsetSize(a - {x}, b - {x});
    }
  }

  /** The part a tile contributes to the potential: its cost, or `unreached` before it is reached. */
  ghost function TileWeight(cost: map<Cell, int>, unreached: int, c: Cell): int
  {
    if c in cost then cost[c] else unreached
  }

  ghost function RowWeight(cost: map<Cell, int>, unreached: int, y: int, w: nat): int
  {
    if w == 0 then 0 else RowWeight(cost, unreached, y, w - 1) + TileWeight(cost, unreached, (w - 1, y))
  }

  /**
   * The termination measure of `find_path`, together with the length of the
   * open list: the costs of the tiles reached plus `unreached` for every
   * tile not reached yet.  Each relaxation lowers it by at least one and
   * pushes one entry; each pop removes one entry.
   */
  ghost function Potential(cost: map<Cell, int>, unreached: int, w: nat, h: nat): int
  {
    if h == 0 then 0 else Potential(cost, unreached, w, h - 1) + RowWeight(cost, unreached, h - 1, w)
  }

  lemma {:induction false} RowWeightUpdate(cost: map<Cell, int>, unreached: int, y: int, w: nat, c: Cell, v: int)
    ensures RowWeight(cost[c := v], unreached, y, w) ==
      RowWeight(cost, unreached, y, w) + (if c.1 == y && 0 <= c.0 < w then v - TileWeight(cost, unreached, c) else 0)
  {
    if w > 0 {
      RowWeightUpdate(cost, unreached, y, w - 1, c, v);
    }
  }

  lemma {:induction false} PotentialUpdate(cost: map<Cell, int>, unreached: int, w: nat, h: nat, c: Cell, v: int)
    requires 0 <= c.0 < w && 0 <= c.1 < h
    ensures Potential(cost[c := v], unreached, w, h) == Potential(cost, unreached, w, h) - TileWeight(cost, unreached, c) + v
  {
    if h > 0 {
      RowWeightUpdate(cost, unreached, h - 1, w, c, v);
      if c.1 < h - 1 {
        PotentialUpdate(cost, unreached, w, h - 1, c, v);
      } else {
        PotentialSame(cost, unreached, w, h - 1, c, v);
      }
    }
  }

  lemma {:induction false} PotentialSame(cost: map<Cell, int>, unreached: int, w: nat, h: nat, c: Cell, v: int)
    requires c.1 >= h
    ensures Potential(cost[c := v], unreached, w, h) == Potential(cost, unreached, w, h)
  {
    if h > 0 {
      RowWeightUpdate(cost, unreached, h - 1, w, c, v);
      PotentialSame(cost, unreached, w, h - 1, c, v);
    }
  }

  lemma {:induction false} RowWeightNonNegative(cost: map<Cell, int>, unreached: int, y: int, w: nat)
    requires unreached >= 0 && forall c :: c in cost ==> cost[c] >= 0
    ensures RowWeight(cost, unreached, y, w) >= 0
  {
    if w > 0 {
      RowWeightNonNegative(cost, unreached, y, w - 1);
    }
  }

  lemma {:induction false} PotentialNonNegative(cost: map<Cell, int>, unreached: int, w: nat, h: nat)
    requires unreached >= 0 && forall c :: c in cost ==> cost[c] >= 0
    ensures Potential(cost, unreached, w, h) >= 0
  {
    if h > 0 {
      PotentialNonNegative(cost, unreached, w, h - 1);
      RowWeightNonNegative(cost, unreached, h - 1, w);
    }
  }

  /**
   * Relaxing from `cur` would change the entry of `c`: `c` is a neighbour of
   * `cur` on the map not reached yet, or reached at a cost above `cur`'s plus one.
   */
  predicate Improves(m: Map, cost: map<Cell, int>, cur: Cell, c: Cell)
    requires cur in cost
  {
    m.InBounds(c) && Adjacent(cur, c) && (c !in cost || cost[cur] + 1 < cost[c])
  }

  /**
   * One relaxation lowers the potential by at least one: a tile reached
   * again gets a strictly lower cost, and a tile reached for the first time
   * trades the weight of an unreached tile for a cost below it.
   */
  lemma RelaxLowersPotential(m: Map, cost: map<Cell, int>, cur: Cell, n: Cell, v: int, cost': map<Cell, int>)
    requires TreeCosts(m, cost)
    requires cur in cost && Improves(m, cost, cur, n) && v == cost[cur] + 1
    requires cost' == cost[n := v]
    ensures Potential(cost', Area(m), m.width, m.height) + 1
         <= Potential(cost, Area(m), m.width, m.height)
  {
    PotentialUpdate(cost, Area(m), m.width, m.height, n, cost[cur] + 1);
    if n !in cost {
      OnMapBound(m, cost.Keys + {n});
      assert |cost.Keys + {n}| == |cost| + 1;
    }
  }

  /**
   * One relaxation of `find_path`, giving `n` cost `v` through `cur`, keeps
   * `start` the root.
   */
  lemma RelaxRoot(m: Map, start: Cell, cost: map<Cell, int>, cameFrom: map<Cell, Cell>, cur: Cell, n: Cell,
                  v: int, cost': map<Cell, int>, cameFrom': map<Cell, Cell>)
    requires TreeRoot(start, cost, cameFrom) && TreeCosts(m, cost)
    requires cur in cost && Improves(m, cost, cur, n) && v == cost[cur] + 1
    requires cost' == cost[n := v] && cameFrom' == cameFrom[n := cur]
    ensures TreeRoot(start, cost', cameFrom')
  {
    assert cost[cur] >= 0;
    assert n != start;
  }

  /** One relaxation keeps every cost on the map and below the number of tiles reached. */
  lemma RelaxCosts(m: Map, cost: map<Cell, int>, cur: Cell, n: Cell, v: int, cost': map<Cell, int>)
    requires TreeCosts(m, cost)
    requires cur in cost && Improves(m, cost, cur, n) && v == cost[cur] + 1
    requires cost' == cost[n := v]
    ensures TreeCosts(m, cost')
  {
    if n in cost {
      assert cost'.Keys == cost.Keys;
    } else {
      assert cost'.Keys == cost.Keys + {n};
    }
    forall c | c in cost'
      ensures m.InBounds(c) && 0 <= cost'[c] < |cost'|
    {
      if c != n {
        assert cost'[c] == cost[c];
      }
    }
  }

  /** One relaxation from a tile on the map that is not a target keeps every link sound. */
  lemma RelaxLinks(m: Map, goal: Goal, cost: map<Cell, int>, cameFrom: map<Cell, Cell>, cur: Cell, n: Cell,
                   v: int, cost': map<Cell, int>, cameFrom': map<Cell, Cell>)
    requires m.Valid() && TreeLinks(m, goal, cost, cameFrom)
    requires cur in cost && m.InBounds(cur) && !IsGoal(m, goal, cur)
    requires Improves(m, cost, cur, n) && v == cost[cur] + 1
    requires cost' == cost[n := v] && cameFrom' == cameFrom[n := cur]
    ensures TreeLinks(m, goal, cost', cameFrom')
  {
    forall c | c in cameFrom'
      ensures c in cost' && cameFrom'[c] in cost' && Adjacent(cameFrom'[c], c) && cost'[cameFrom'[c]] < cost'[c]
      ensures m.InBounds(cameFrom'[c]) && !IsGoal(m, goal, cameFrom'[c])
    {
      if c != n {
        assert cameFrom'[c] == cameFrom[c] && cost'[c] == cost[c];
      }
    }
  }

  /**
   * What `find_path` promises: no path exactly when no tile of the map is a
   * target; an empty path exactly when `start` is one; otherwise a route.
   */
  ghost predicate SearchOutcome(m: Map, goal: Goal, start: Cell, r: Option<seq<Cell>>)
    reads m.grid
    requires m.Valid() && m.InBounds(start)
  {
    (r.None? <==> forall c :: m.InBounds(c) ==> !IsGoal(m, goal, c))
    && (r == Some([]) <==> IsGoal(m, goal, start))
    && (r.Some? && r.value != [] ==> IsRoute(m, goal, start, r.value))
  }

  /**
   * A route from `start` to a target: it begins next to `start`, steps
   * between neighbouring tiles on the map, passes no target before its last
   * tile, which is one, never comes back to `start` and visits no tile twice.
   */
  ghost predicate IsRoute(m: Map, goal: Goal, start: Cell, p: seq<Cell>)
    reads m.grid
    requires m.Valid()
  {
    p != [] && Adjacent(start, p[0])
    && (forall i :: 0 <= i < |p| ==> m.InBounds(p[i]) && p[i] != start)
    && (forall i :: 0 <= i < |p| - 1 ==> Adjacent(p[i], p[i + 1]) && !IsGoal(m, goal, p[i]))
    && IsGoal(m, goal, p[|p| - 1])
    && (forall i, j :: 0 <= i < j < |p| ==> p[i] != p[j])
  }
}
