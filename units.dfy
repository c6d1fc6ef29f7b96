/**
 * model.py's `Unit`: a villager that walks the map, harvests Wood, Gold and
 * farm Food up to its carrying capacity, and deposits at the Town Center;
 * and its path finder.
 */
module Units {
  import opened Wrappers
  import opened Grid
  import opened Paths
  import Economy

  /** What a villager can carry (`max_capacity`). */
  const MaxCapacity: int := 20

  /** The most a single harvest takes. */
  const HarvestBatch: int := 20

  /** Milliseconds between two farm harvests (5 s in the source). */
  const HarvestDelay: int := 5000

  function Min(a: int, b: int): (r: int)
    ensures r <= a && r <= b && (r == a || r == b)
  {
    if a <= b then a else b
  }

  /**
   * `heapq.heappop`'s choice: the position of an entry no other entry is
   * below in `(priority, x, y)` order.
   */
  method MinIndex(open: seq<Entry>) returns (k: int)
    requires |open| > 0
    ensures 0 <= k < |open|
    ensures forall j :: 0 <= j < |open| ==> !Below(open[j], open[k])
  {
    k := 0;
    var i := 1;
    while i < |open|
      invariant 1 <= i <= |open| && 0 <= k < i
      invariant forall j :: 0 <= j < i ==> !Below(open[j], open[k])
    {
      if Below(open[i], open[k]) {
        k := i;
      }
      i := i + 1;
    }
  }

  /**
   * The costs after relaxing from `cur` the moves before `i`: exactly the
   * neighbours among those that `Improves` holds of get `cost[cur] + 1`.
   */
  ghost predicate RelaxedUpTo(m: Map, cost: map<Cell, int>, cur: Cell, i: int, cost': map<Cell, int>)
    requires cur in cost
  {
    (forall c :: c in cost' <==> c in cost || (Improves(m, cost, cur, c) && DirOf(cur, c) < i))
    && (forall c :: c in cost' ==> cost'[c] == if Improves(m, cost, cur, c) && DirOf(cur, c) < i then cost[cur] + 1 else cost[c])
  }

  /**
   * The open list after relaxing the moves before `i`: `open` followed by one
   * entry, with priority `cost[cur] + 1` plus the distance to `anchor`, for
   * each neighbour among those that `Improves` holds of.
   */
  ghost predicate PushedUpTo(m: Map, cost: map<Cell, int>, cur: Cell, anchor: Cell, i: int, open: seq<Entry>, open': seq<Entry>)
    requires cur in cost
  {
    |open| <= |open'| && open'[..|open|] == open
    && (forall k :: |open| <= k < |open'| ==>
          Improves(m, cost, cur, open'[k].cell) && DirOf(cur, open'[k].cell) < i
          && open'[k].priority == cost[cur] + 1 + Manhattan(open'[k].cell, anchor))
    && (forall c :: Improves(m, cost, cur, c) && DirOf(cur, c) < i ==> Queued(open'[|open|..], c))
  }

  /** Before move `i` is relaxed, `cur`'s own cost is as it was and move `i`'s target is untouched. */
  lemma RelaxFacts(m: Map, cost: map<Cell, int>, cur: Cell, i: int, cost': map<Cell, int>)
    requires cur in cost && 0 <= i < |PathDirections|
    requires RelaxedUpTo(m, cost, cur, i, cost')
    ensures cur in cost' && cost'[cur] == cost[cur]
    ensures Improves(m, cost', cur, Neighbour(cur, i)) <==> Improves(m, cost, cur, Neighbour(cur, i))
  {
    NeighbourDir(cur, i);
    assert !Adjacent(cur, cur);
  }

  /**
   * The costs after the neighbour loop of `find_path` has relaxed moves
   * `0 .. i-1` from `cur`, each move judged against the costs it started with.
   */
  ghost function Relaxed(m: Map, cost: map<Cell, int>, cur: Cell, i: int): map<Cell, int>
    requires cur in cost && 0 <= i <= |PathDirections|
  {
    if i == 0 then cost
    else
      var n := Neighbour(cur, i - 1);
      var prev := Relaxed(m, cost, cur, i - 1);
      if Improves(m, cost, cur, n) then prev[n := cost[cur] + 1] else prev
  }

  /** The predecessors after relaxing moves `0 .. i-1` from `cur`. */
  ghost function Linked(m: Map, cost: map<Cell, int>, cameFrom: map<Cell, Cell>, cur: Cell, i: int): map<Cell, Cell>
    requires cur in cost && 0 <= i <= |PathDirections|
  {
    if i == 0 then cameFrom
    else
      var n := Neighbour(cur, i - 1);
      var prev := Linked(m, cost, cameFrom, cur, i - 1);
      if Improves(m, cost, cur, n) then prev[n := cur] else prev
  }

  /** The open list after pushing the entries for moves `0 .. i-1` from `cur` onto `open`. */
  ghost function PushedOnto(m: Map, cost: map<Cell, int>, cur: Cell, anchor: Cell, open: seq<Entry>, i: int): seq<Entry>
    requires cur in cost && 0 <= i <= |PathDirections|
  {
    if i == 0 then open
    else
      var n := Neighbour(cur, i - 1);
      var prev := PushedOnto(m, cost, cur, anchor, open, i - 1);
      if Improves(m, cost, cur, n) then prev + [Entry(cost[cur] + 1 + Manhattan(n, anchor), n)] else prev
  }

  /** Relaxing move `i - 1`, or finding nothing to relax, extends `RelaxedUpTo` by one move. */
  lemma RelaxStep(m: Map, cost: map<Cell, int>, cur: Cell, i: int, cost0: map<Cell, int>, cost1: map<Cell, int>)
    requires cur in cost && 0 < i <= |PathDirections|
    requires RelaxedUpTo(m, cost, cur, i - 1, cost0)
    requires cost1 == if Improves(m, cost, cur, Neighbour(cur, i - 1)) then cost0[Neighbour(cur, i - 1) := cost[cur] + 1] else cost0
    ensures RelaxedUpTo(m, cost, cur, i, cost1)
  {
    var n := Neighbour(cur, i - 1);
    NeighbourDir(cur, i - 1);
    forall c | Improves(m, cost, cur, c) && DirOf(cur, c) == i - 1
      ensures c == n
    {
    }
    forall c | c in cost1
      ensures cost1[c] == if Improves(m, cost, cur, c) && DirOf(cur, c) < i then cost[cur] + 1 else cost[c]
    {
      if c != n {
        assert c in cost0;
      }
    }
  }

  /** Pushing the entry for move `i`, or pushing nothing, extends `PushedUpTo` by one move. */
  lemma PushStep(m: Map, cost: map<Cell, int>, cur: Cell, anchor: Cell, i: int, open: seq<Entry>)
    requires cur in cost && 0 <= i < |PathDirections|
    requires PushedUpTo(m, cost, cur, anchor, i, open, PushedOnto(m, cost, cur, anchor, open, i))
    ensures PushedUpTo(m, cost, cur, anchor, i + 1, open, PushedOnto(m, cost, cur, anchor, open, i + 1))
  {
    var n := Neighbour(cur, i);
    var open0, open1 := PushedOnto(m, cost, cur, anchor, open, i), PushedOnto(m, cost, cur, anchor, open, i + 1);
    NeighbourDir(cur, i);
    if Improves(m, cost, cur, n) {
      assert open1[..|open|] == open;
      assert open1[|open|..] == open0[|open|..] + [open1[|open1| - 1]];
      forall c | Improves(m, cost, cur, c) && DirOf(cur, c) < i + 1
        ensures Queued(open1[|open|..], c)
      {
        if DirOf(cur, c) == i {
          assert open1[|open|..][|open1| - 1 - |open|].cell == c;
        } else {
          var j :| 0 <= j < |open0[|open|..]| && open0[|open|..][j].cell == c;
          assert open1[|open|..][j].cell == c;
        }
      }
    } else {
      forall c | Improves(m, cost, cur, c) && DirOf(cur, c) < i + 1
        ensures DirOf(cur, c) < i
      {
        assert DirOf(cur, c) == i ==> c == n;
      }
    }
  }

  /** Relaxing one more move updates at most the tile that move reaches. */
  lemma RelaxedUnfold(m: Map, cost: map<Cell, int>, cur: Cell, i: int)
    requires cur in cost && 0 < i <= |PathDirections|
    ensures Relaxed(m, cost, cur, i)
      == if Improves(m, cost, cur, Neighbour(cur, i - 1)) then Relaxed(m, cost, cur, i - 1)[Neighbour(cur, i - 1) := cost[cur] + 1]
         else Relaxed(m, cost, cur, i - 1)
  {
  }

  /** What relaxing the first `i` moves does to the costs, tile by tile. */
  lemma {:induction false} RelaxedShape(m: Map, cost: map<Cell, int>, cur: Cell, i: int)
    requires cur in cost && 0 <= i <= |PathDirections|
    ensures RelaxedUpTo(m, cost, cur, i, Relaxed(m, cost, cur, i))
  {
    if i > 0 {
      RelaxedShape(m, cost, cur, i - 1);
      RelaxedUnfold(m, cost, cur, i);
      RelaxStep(m, cost, cur, i, Relaxed(m, cost, cur, i - 1), Relaxed(m, cost, cur, i));
    }
  }

  /** What relaxing the first `i` moves pushes onto the open list. */
  lemma {:induction false} PushedShape(m: Map, cost: map<Cell, int>, cur: Cell, anchor: Cell, open: seq<Entry>, i: int)
    requires cur in cost && 0 <= i <= |PathDirections|
    ensures PushedUpTo(m, cost, cur, anchor, i, open, PushedOnto(m, cost, cur, anchor, open, i))
  {
    if i == 0 {
      assert open[..|open|] == open;
    } else {
      PushedShape(m, cost, cur, anchor, open, i - 1);
      PushStep(m, cost, cur, anchor, i - 1, open);
    }
  }

  /**
   * Halfway through the neighbour loop, `cur` keeps its cost and move `i`
   * improves on the current costs exactly when it improves on the ones the
   * loop started with.
   */
  lemma RelaxedAt(m: Map, cost: map<Cell, int>, cur: Cell, i: int)
    requires cur in cost && 0 <= i < |PathDirections|
    ensures cur in Relaxed(m, cost, cur, i) && Relaxed(m, cost, cur, i)[cur] == cost[cur]
    ensures Improves(m, Relaxed(m, cost, cur, i), cur, Neighbour(cur, i)) <==> Improves(m, cost, cur, Neighbour(cur, i))
  {
    RelaxedShape(m, cost, cur, i);
    RelaxFacts(m, cost, cur, i, Relaxed(m, cost, cur, i));
  }

  /**
   * Relaxing the first `i` moves from a tile reached that is not a target
   * keeps the tables a search tree.
   */
  lemma RelaxedTree(m: Map, goal: Goal, start: Cell, cost: map<Cell, int>, cameFrom: map<Cell, Cell>, cur: Cell, i: int)
    requires m.Valid() && SearchTree(m, goal, start, cost, cameFrom)
    requires cur in cost && !IsGoal(m, goal, cur) && 0 <= i <= |PathDirections|
    ensures SearchTree(m, goal, start, Relaxed(m, cost, cur, i), Linked(m, cost, cameFrom, cur, i))
  {
    RelaxedCosts(m, cost, cur, i);
    RelaxedRoot(m, start, cost, cameFrom, cur, i);
    RelaxedLinks(m, goal, cost, cameFrom, cur, i);
  }

  /** Relaxing the first `i` moves keeps `start` the root every other tile reached hangs from. */
  lemma {:induction false} RelaxedRoot(m: Map, start: Cell, cost: map<Cell, int>, cameFrom: map<Cell, Cell>, cur: Cell, i: int)
    requires TreeRoot(start, cost, cameFrom) && TreeCosts(m, cost) && cur in cost && 0 <= i <= |PathDirections|
    ensures TreeRoot(start, Relaxed(m, cost, cur, i), Linked(m, cost, cameFrom, cur, i))
  {
    if i > 0 {
      var n := Neighbour(cur, i - 1);
      RelaxedRoot(m, start, cost, cameFrom, cur, i - 1);
      RelaxedCosts(m, cost, cur, i - 1);
      RelaxedAt(m, cost, cur, i - 1);
      if Improves(m, cost, cur, n) {
        RelaxRoot(m, start, Relaxed(m, cost, cur, i - 1), Linked(m, cost, cameFrom, cur, i - 1), cur, n,
                  cost[cur] + 1, Relaxed(m, cost, cur, i), Linked(m, cost, cameFrom, cur, i));
      }
    }
  }

  /** Relaxing the first `i` moves from a tile on the map that is not a target keeps every link sound. */
  lemma {:induction false} RelaxedLinks(m: Map, goal: Goal, cost: map<Cell, int>, cameFrom: map<Cell, Cell>, cur: Cell, i: int)
    requires m.Valid() && TreeLinks(m, goal, cost, cameFrom) && TreeCosts(m, cost)
    requires cur in cost && !IsGoal(m, goal, cur) && 0 <= i <= |PathDirections|
    ensures TreeLinks(m, goal, Relaxed(m, cost, cur, i), Linked(m, cost, cameFrom, cur, i))
  {
    if i > 0 {
      var n := Neighbour(cur, i - 1);
      RelaxedLinks(m, goal, cost, cameFrom, cur, i - 1);
      RelaxedAt(m, cost, cur, i - 1);
      if Improves(m, cost, cur, n) {
        RelaxLinks(m, goal, Relaxed(m, cost, cur, i - 1), Linked(m, cost, cameFrom, cur, i - 1), cur, n,
                   cost[cur] + 1, Relaxed(m, cost, cur, i), Linked(m, cost, cameFrom, cur, i));
      }
    }
  }

  /** Relaxing the first `i` moves keeps every cost on the map and below the number of tiles reached. */
  lemma {:induction false} RelaxedCosts(m: Map, cost: map<Cell, int>, cur: Cell, i: int)
    requires TreeCosts(m, cost) && cur in cost && 0 <= i <= |PathDirections|
    ensures TreeCosts(m, Relaxed(m, cost, cur, i))
  {
    if i > 0 {
      var n := Neighbour(cur, i - 1);
      RelaxedCosts(m, cost, cur, i - 1);
      RelaxedAt(m, cost, cur, i - 1);
      if Improves(m, cost, cur, n) {
        RelaxCosts(m, Relaxed(m, cost, cur, i - 1), cur, n, cost[cur] + 1, Relaxed(m, cost, cur, i));
      }
    }
  }

  /** How many of the first `i` moves from `cur` improve on `cost`. */
  ghost function Improving(m: Map, cost: map<Cell, int>, cur: Cell, i: int): nat
    requires cur in cost && 0 <= i <= |PathDirections|
  {
    if i == 0 then 0 else Improving(m, cost, cur, i - 1) + if Improves(m, cost, cur, Neighbour(cur, i - 1)) then 1 else 0
  }

  /** Relaxing the first `i` moves pushes one entry per improving move. */
  lemma {:induction false} PushedCount(m: Map, cost: map<Cell, int>, cur: Cell, anchor: Cell, open: seq<Entry>, i: int)
    requires cur in cost && 0 <= i <= |PathDirections|
    ensures |PushedOnto(m, cost, cur, anchor, open, i)| == |open| + Improving(m, cost, cur, i)
  {
    if i > 0 {
      PushedCount(m, cost, cur, anchor, open, i - 1);
    }
  }

  /** Relaxing the first `i` moves lowers the potential by at least one per improving move. */
  lemma {:induction false} RelaxedLowers(m: Map, cost: map<Cell, int>, cur: Cell, i: int)
    requires TreeCosts(m, cost) && cur in cost && 0 <= i <= |PathDirections|
    ensures Potential(Relaxed(m, cost, cur, i), Area(m), m.width, m.height) + Improving(m, cost, cur, i)
         <= Potential(cost, Area(m), m.width, m.height)
  {
    if i > 0 {
      var n := Neighbour(cur, i - 1);
      RelaxedLowers(m, cost, cur, i - 1);
      if Improves(m, cost, cur, n) {
        RelaxedCosts(m, cost, cur, i - 1);
        RelaxedAt(m, cost, cur, i - 1);
        RelaxLowersPotential(m, Relaxed(m, cost, cur, i - 1), cur, n, cost[cur] + 1, Relaxed(m, cost, cur, i));
      }
    }
  }

  /**
   * Relaxing the first `i` moves lowers the potential by at least the number
   * of entries pushed.
   */
  lemma RelaxedPotential(m: Map, cost: map<Cell, int>, cur: Cell, anchor: Cell, open: seq<Entry>, i: int)
    requires TreeCosts(m, cost) && cur in cost && 0 <= i <= |PathDirections|
    ensures Potential(Relaxed(m, cost, cur, i), Area(m), m.width, m.height) + |PushedOnto(m, cost, cur, anchor, open, i)|
         <= Potential(cost, Area(m), m.width, m.height) + |open|
  {
    PushedCount(m, cost, cur, anchor, open, i);
    RelaxedLowers(m, cost, cur, i);
  }

  /**
   * The neighbour loop of `find_path` for the tile `cur` just taken off the
   * open list: every neighbour on the map not reached yet, or reached at a
   * higher cost than through `cur`, gets cost `cost[cur] + 1`, `cur` as its
   * predecessor, and an entry on the open list whose priority adds the
   * Manhattan distance to `anchor`.  `RelaxedShape`, `PushedShape` and
   * `RelaxedTree` say what the resulting tables mean.
   */
  method Expand(m: Map, anchor: Cell, cur: Cell, open: seq<Entry>, cost: map<Cell, int>, cameFrom: map<Cell, Cell>)
    returns (open': seq<Entry>, cost': map<Cell, int>, cameFrom': map<Cell, Cell>)
    requires cur in cost
    ensures cost' == Relaxed(m, cost, cur, |PathDirections|)
    ensures cameFrom' == Linked(m, cost, cameFrom, cur, |PathDirections|)
    ensures open' == PushedOnto(m, cost, cur, anchor, open, |PathDirections|)
  {
    open', cost', cameFrom' := open, cost, cameFrom;
    for i := 0 to |PathDirections|
      invariant cost' == Relaxed(m, cost, cur, i)
      invariant cameFrom' == Linked(m, cost, cameFrom, cur, i)
      invariant open' == PushedOnto(m, cost, cur, anchor, open, i)
    {
      var next := Neighbour(cur, i);
      RelaxedAt(m, cost, cur, i);
      NeighbourDir(cur, i);
      ghost var improves := Improves(m, cost, cur, next);
      if 0 <= next.0 < m.width && 0 <= next.1 < m.height {
        var newCost := cost'[cur] + 1;
        if next !in cost' || newCost < cost'[next] {
          assert improves && newCost == cost[cur] + 1;
          cost' := cost'[next := newCost];
          open' := open' + [Entry(newCost + Manhattan(next, anchor), next)];
          cameFrom' := cameFrom'[next := cur];
        } else {
          assert !improves;
        }
      } else {
        assert !improves;
      }
    }
  }

  /**
   * What `gather_food_from_farm` at time `now` does to villager `u` working
   * `farm`: an exhausted farm is dropped and left as it was, without being
   * freed.  Otherwise the farm ends occupied; the harvest is due at the time
   * set earlier, or at `now + 5 s` when none was; before it is due nothing
   * else changes.  Once due, the villager takes `min(20, capacity - load)`
   * food, at most what the farm holds, and carries Food; full, it heads
   * home, frees the farm and drops it, otherwise the next harvest is due
   * 5 s after `now`.
   */
  twostate predicate WorkedFarm(u: Unit, farm: Building, now: int)
    reads u, farm
  {
    if old(farm.foodCapacity) <= 0 then
      u.workingFarm == null && farm.occupied == old(farm.occupied) && farm.foodCapacity == old(farm.foodCapacity)
      && u.resourceCollected == old(u.resourceCollected) && u.currentResource == old(u.currentResource)
      && u.returningToTownCenter == old(u.returningToTownCenter) && u.actionEndTime == old(u.actionEndTime)
    else
      var due := old(u.actionEndTime).GetOr(now + HarvestDelay);
      if now < due then
        u.workingFarm == farm && farm.occupied && farm.foodCapacity == old(farm.foodCapacity)
        && u.actionEndTime == Some(due)
        && u.resourceCollected == old(u.resourceCollected) && u.currentResource == old(u.currentResource)
        && u.returningToTownCenter == old(u.returningToTownCenter)
      else
        var gathered := Min(Min(HarvestBatch, MaxCapacity - old(u.resourceCollected)), old(farm.foodCapacity));
        u.resourceCollected == old(u.resourceCollected) + gathered
        && farm.foodCapacity == old(farm.foodCapacity) - gathered
        && u.currentResource == Some(Food)
        && if u.resourceCollected >= MaxCapacity then
             u.returningToTownCenter && !farm.occupied && u.workingFarm == null && u.actionEndTime == Some(due)
           else
             u.returningToTownCenter == old(u.returningToTownCenter) && farm.occupied && u.workingFarm == farm
             && u.actionEndTime == Some(now + HarvestDelay)
  }

  /** model.py `Unit`. */
  class Unit {
    const networkId: int
    const isRemote: bool
    const unitType: string
    var x: int
    var y: int
    const ai: Economy.AI
    const owner: string
    var resourceCollected: int
    const maxCapacity: int := MaxCapacity
    var returningToTownCenter: bool
    /** The kind of what the villager carries. */
    var currentResource: Option<Resource>
    var workingFarm: Building?
    /** When the next farm harvest is due; unset until the first visit to a farm. */
    var actionEndTime: Option<int>

    /** The load never exceeds the capacity and the farm worked is a farm. */
    ghost predicate Valid()
      reads this
    {
      0 <= resourceCollected <= maxCapacity && (workingFarm != null ==> workingFarm.kind == Farm)
    }

    /**
     * `Unit(unit_type, x, y, ai, owner, network_id, is_remote)`.  The source
     * numbers units from a class-wide counter when no id is given; here the
     * id is always given.
     */
    constructor (unitType: string, x: int, y: int, ai: Economy.AI, owner: Option<string>, networkId: int, isRemote: bool)
      ensures this.unitType == unitType && this.x == x && this.y == y && this.ai == ai
      ensures this.owner == owner.GetOr(DefaultPlayer) && this.networkId == networkId && this.isRemote == isRemote
      ensures resourceCollected == 0 && !returningToTownCenter && currentResource == None
      ensures workingFarm == null && actionEndTime == None
      ensures Valid()
    {
      this.networkId := networkId;
      this.isRemote := isRemote;
      this.unitType := unitType;
      this.x := x;
      this.y := y;
      this.ai := ai;
      this.owner := owner.GetOr(DefaultPlayer);
      resourceCollected := 0;
      returningToTownCenter := false;
      currentResource := None;
      workingFarm := null;
      actionEndTime := None;
    }

    /** `move`. */
    method Move(newX: int, newY: int)
      modifies this`x, this`y
      ensures x == newX && y == newY
    {
      x := newX;
      y := newY;
    }

    /**
     * `gather_resource`: on a tile holding a resource, the villager takes
     * `min(20, capacity - load)`, which fills it up, remembers the kind as
     * the tile's element id (the resource first harvested there), heads home
     * once full, and the tile loses its resource.  Elsewhere nothing happens.
     * The element's ownership test always passes, since the villager's player
     * has just been made its network owner.
     */
    method GatherResource(m: Map)
      requires m.Valid() && m.InBounds((x, y))
      modifies this`resourceCollected, this`currentResource, this`returningToTownCenter, m.grid
      ensures x == old(x) && y == old(y)
      ensures old(m.At((x, y))).resource.None? ==>
        resourceCollected == old(resourceCollected) && currentResource == old(currentResource)
        && returningToTownCenter == old(returningToTownCenter) && m.At((x, y)) == old(m.At((x, y)))
      ensures old(m.At((x, y))).resource.Some? ==>
        var t := old(m.At((x, y)));
        var id := t.elementId.GetOr(t.resource.value);
        resourceCollected == old(resourceCollected) + Min(HarvestBatch, maxCapacity - old(resourceCollected))
        && currentResource == Some(id)
        && returningToTownCenter == (old(returningToTownCenter) || resourceCollected >= maxCapacity)
        && m.At((x, y)) == t.(resource := None, elementId := Some(id))
      ensures forall r, c :: 0 <= r < m.height && 0 <= c < m.width && (c, r) != (x, y) ==> m.grid[r, c] == old(m.grid[r, c])
      ensures old(Valid()) ==> Valid()
      ensures old(Valid()) && old(m.At((x, y))).resource.Some? ==> resourceCollected == maxCapacity && returningToTownCenter
    {
      var tile := m.grid[y, x];
      if tile.resource.Some? {
        var id := tile.elementId.GetOr(tile.resource.value);
        var gathered := Min(HarvestBatch, maxCapacity - resourceCollected);
        resourceCollected := resourceCollected + gathered;
        currentResource := Some(id);
        if resourceCollected >= maxCapacity {
          returningToTownCenter := true;
        }
        m.grid[y, x] := tile.(resource := None, elementId := Some(id));
      }
    }

    /**
     * `gather_food_from_farm` at time `now`: with no farm, nothing happens;
     * otherwise the villager works its farm as `WorkedFarm` says.
     */
    method GatherFoodFromFarm(now: int)
      requires workingFarm != null ==> workingFarm.kind == Farm
      modifies this, if workingFarm != null then {workingFarm} else {}
      ensures x == old(x) && y == old(y)
      ensures old(workingFarm) == null ==>
        workingFarm == null && resourceCollected == old(resourceCollected) && currentResource == old(currentResource)
        && returningToTownCenter == old(returningToTownCenter) && actionEndTime == old(actionEndTime)
      ensures old(workingFarm) != null ==> WorkedFarm(this, old(workingFarm), now)
      ensures old(Valid()) ==> Valid()
    {
      if workingFarm == null {
        return;
      }
      var farm := workingFarm;
      if farm.IsEmpty() {
        workingFarm := null;
        return;
      }
      if !farm.IsOccupied() {
        farm.Occupy();
      }
      if actionEndTime.None? {
        actionEndTime := Some(now + HarvestDelay);
      }
      if now >= actionEndTime.value {
        var amount := Min(HarvestBatch, maxCapacity - resourceCollected);
        var food := farm.GatherFood(amount);
        resourceCollected := resourceCollected + food;
        currentResource := Some(Food);
        if resourceCollected >= maxCapacity {
          returningToTownCenter := true;
          farm.Free();
          workingFarm := null;
        } else {
          actionEndTime := Some(now + HarvestDelay);
        }
      }
    }

    /**
     * `deposit_resource`: at a Town Center, while carrying something, the load
     * is credited to the player's ledger and the villager is emptied and stops
     * heading home; otherwise nothing happens.  A second deposit right after
     * the first changes nothing, since the villager then carries nothing.
     */
    method DepositResource(building: Building?)
      modifies this`resourceCollected, this`returningToTownCenter, this`currentResource, ai`resources
      ensures building != null && building.kind == TownCenter && old(currentResource).Some? ==>
        ai.resources == Economy.Credited(old(ai.resources), old(currentResource).value, old(resourceCollected))
        && resourceCollected == 0 && !returningToTownCenter && currentResource == None
      ensures !(building != null && building.kind == TownCenter && old(currentResource).Some?) ==>
        ai.resources == old(ai.resources) && resourceCollected == old(resourceCollected)
        && returningToTownCenter == old(returningToTownCenter) && currentResource == old(currentResource)
      ensures old(Valid()) ==> Valid()
    {
      if building != null && building.kind == TownCenter && currentResource.Some? {
        ai.UpdateResources(currentResource.value, resourceCollected);
        resourceCollected := 0;
        returningToTownCenter := false;
        currentResource := None;
      }
    }

    /**
     * `reconstruct_path`: walk `cameFrom` back from `current`, then reverse.
     * The walk ends because `cost` falls strictly along every link.
     */
    method ReconstructPath(cameFrom: map<Cell, Cell>, current: Cell, ghost cost: map<Cell, int>) returns (path: seq<Cell>)
      requires Descending(cameFrom, cost) && current in cost
      ensures path == ChainTo(cameFrom, cost, current)
    {
      var walked: seq<Cell> := [];
      var c := current;
      while c in cameFrom
        invariant c in cost
        invariant ChainTo(cameFrom, cost, current) == ChainTo(cameFrom, cost, c) + Reversed(walked)
        decreases cost[c]
      {
        ReversedSnoc(walked, c);
        walked := walked + [c];
        c := cameFrom[c];
      }
      path := Reversed(walked);
    }

    /**
     * `find_path`: best-first search from `start` over the 8 moves, taking off
     * the open list the entry least in `(priority, x, y)` order, where the
     * priority is the cost so far plus the Manhattan distance to the unit's
     * own position.  The target test is made when a tile is taken off.
     */
    method FindPath(m: Map, start: Cell, goal: Goal) returns (path: Option<seq<Cell>>)
      requires m.Valid() && m.InBounds(start)
      ensures SearchOutcome(m, goal, start, path)
    {
      var anchor := (x, y);
      var open: seq<Entry> := [Entry(0, start)];
      var cameFrom: map<Cell, Cell> := map[];
      var cost: map<Cell, int> := map[start := 0];
      ghost var unreached := Area(m);
      assert open[0].cell == start;
      while |open| > 0
        invariant SearchTree(m, goal, start, cost, cameFrom)
        invariant forall j :: 0 <= j < |open| ==> open[j].cell in cost
        invariant forall c :: c in cost ==> Queued(open, c) || Expanded(m, goal, cost, c)
        invariant IsGoal(m, goal, start) ==> open == [Entry(0, start)]
        decreases Potential(cost, unreached, m.width, m.height) + |open|
      {
        PotentialNonNegative(cost, unreached, m.width, m.height);
        var k := MinIndex(open);
        var current := open[k].cell;
        ghost var before := open;
        open := open[..k] + open[k + 1..];
        if IsGoal(m, goal, current) {
          TreeDescends(m, goal, start, cost, cameFrom);
          var p := ReconstructPath(cameFrom, current, cost);
          FoundOutcome(m, goal, start, cost, cameFrom, current);
          return Some(p);
        }
        ghost var cost0, cameFrom0, rest := cost, cameFrom, open;
        open, cost, cameFrom := Expand(m, anchor, current, open, cost, cameFrom);
        RelaxedTree(m, goal, start, cost0, cameFrom0, current, |PathDirections|);
        RelaxedPotential(m, cost0, current, anchor, rest, |PathDirections|);
        SearchStepEntries(m, cost0, anchor, before, k, rest, current, open, cost);
        SearchStep(m, goal, anchor, before, k, rest, cost0, current, open, cost);
      }
      SearchExhausted(m, goal, start, cost, cameFrom);
      return None;
    }

    /**
     * `find_nearest_farm`: search for a farm from the unit's tile, and keep
     * the route only when the farm at its end is neither occupied nor
     * exhausted.  An empty route (the unit already stands on a farm) counts
     * as no route.
     */
    method FindNearestFarm(m: Map) returns (path: Option<seq<Cell>>)
      requires m.Valid() && m.InBounds((x, y))
      ensures path.Some? ==> IsRoute(m, FarmGoal, (x, y), path.value)
      ensures path.Some? ==> var b := m.At(path.value[|path.value| - 1]).building;
        b != null && b.kind == Farm && !b.IsOccupied() && !b.IsEmpty()
      ensures (forall c :: m.InBounds(c) ==> !IsGoal(m, FarmGoal, c)) ==> path.None?
      ensures IsGoal(m, FarmGoal, (x, y)) ==> path.None?
    {
      var found := FindPath(m, (x, y), FarmGoal);
      if found.Some? && found.value != [] {
        var p := found.value;
        var b := m.At(p[|p| - 1]).building;
        if b != null && !b.IsOccupied() && !b.IsEmpty() {
          return Some(p);
        }
      }
      return None;
    }

    /** `find_nearest_gold`: the search for a gold tile from the unit's tile. */
    method FindNearestGold(m: Map) returns (path: Option<seq<Cell>>)
      requires m.Valid() && m.InBounds((x, y))
      ensures SearchOutcome(m, GoldGoal, (x, y), path)
    {
      path := FindPath(m, (x, y), GoldGoal);
    }

    /** `find_nearest_wood`: the search for a wood tile from the unit's tile. */
    method FindNearestWood(m: Map) returns (path: Option<seq<Cell>>)
      requires m.Valid() && m.InBounds((x, y))
      ensures SearchOutcome(m, WoodGoal, (x, y), path)
    {
      path := FindPath(m, (x, y), WoodGoal);
    }

    /**
     * `find_nearest_town_center`: the target is the first building of the
     * list; a unit already on its tile gets no route, and one elsewhere on a
     * map that holds it gets a route ending on it.
     */
    method FindNearestTownCenter(m: Map, buildings: seq<Building>) returns (path: Option<seq<Cell>>)
      requires m.Valid() && m.InBounds((x, y)) && |buildings| > 0
      ensures (x, y) == (buildings[0].x, buildings[0].y) ==> path.None?
      ensures (x, y) != (buildings[0].x, buildings[0].y) ==> SearchOutcome(m, TownCenterGoal(buildings[0]), (x, y), path)
      ensures (x, y) != (buildings[0].x, buildings[0].y) && m.InBounds((buildings[0].x, buildings[0].y)) ==>
        path.Some? && IsRoute(m, TownCenterGoal(buildings[0]), (x, y), path.value)
        && path.value[|path.value| - 1] == (buildings[0].x, buildings[0].y)
    {
      var townCenter := buildings[0];
      if (x, y) == (townCenter.x, townCenter.y) {
        return None;
      }
      path := FindPath(m, (x, y), TownCenterGoal(townCenter));
      if m.InBounds((townCenter.x, townCenter.y)) {
        assert IsGoal(m, TownCenterGoal(townCenter), (townCenter.x, townCenter.y));
      }
    }
  }

  /** After the neighbour loop, the tiles reached are the old ones and those a move from `cur` improves. */
  lemma RelaxedKeys(m: Map, cost: map<Cell, int>, cur: Cell)
    requires cur in cost
    ensures forall c :: c in Relaxed(m, cost, cur, |PathDirections|) <==> c in cost || Improves(m, cost, cur, c)
  {
    RelaxedShape(m, cost, cur, |PathDirections|);
    assert forall c :: Improves(m, cost, cur, c) ==> DirOf(cur, c) < |PathDirections|;
  }

  /**
   * After the neighbour loop, the open list starts with the entries it had,
   * and the entries added are exactly one per tile a move from `cur` improves.
   */
  lemma PushedEntries(m: Map, cost: map<Cell, int>, cur: Cell, anchor: Cell, rest: seq<Entry>)
    requires cur in cost
    ensures var open := PushedOnto(m, cost, cur, anchor, rest, |PathDirections|);
      |rest| <= |open| && open[..|rest|] == rest
      && (forall j :: |rest| <= j < |open| ==> Improves(m, cost, cur, open[j].cell))
      && (forall c :: Improves(m, cost, cur, c) ==> Queued(open, c))
  {
    var open := PushedOnto(m, cost, cur, anchor, rest, |PathDirections|);
    PushedShape(m, cost, cur, anchor, rest, |PathDirections|);
    assert forall c :: Improves(m, cost, cur, c) ==> DirOf(cur, c) < |PathDirections|;
    forall c | Improves(m, cost, cur, c)
      ensures Queued(open, c)
    {
      var j :| 0 <= j < |open[|rest|..]| && open[|rest|..][j].cell == c;
      assert open[|rest| + j].cell == c;
    }
  }

  /** Taking entry `k` off the open list keeps every other entry, in order. */
  lemma TakeOut(before: seq<Entry>, k: int, rest: seq<Entry>)
    requires 0 <= k < |before| && rest == before[..k] + before[k + 1..]
    ensures |rest| == |before| - 1
    ensures forall j :: 0 <= j < |rest| ==> rest[j] == if j < k then before[j] else before[j + 1]
    ensures forall c :: Queued(before, c) && before[k].cell != c ==> Queued(rest, c)
  {
    forall c | Queued(before, c) && before[k].cell != c
      ensures Queued(rest, c)
    {
      var j :| 0 <= j < |before| && before[j].cell == c;
      if j < k {
        assert rest[j] == before[j];
      } else {
        assert rest[j - 1] == before[j];
      }
    }
  }

  /** An entry of a prefix is an entry of the whole list. */
  lemma QueuedPrefix(open: seq<Entry>, rest: seq<Entry>, c: Cell)
    requires |rest| <= |open| && open[..|rest|] == rest && Queued(rest, c)
    ensures Queued(open, c)
  {
    var j :| 0 <= j < |rest| && rest[j].cell == c;
    assert open[j] == rest[j];
  }

  /**
   * After taking entry `k` off the open list and expanding its tile, every
   * entry names a tile reached.
   */
  lemma SearchStepEntries(m: Map, cost: map<Cell, int>, anchor: Cell, before: seq<Entry>, k: int, rest: seq<Entry>,
                          current: Cell, open: seq<Entry>, cost': map<Cell, int>)
    requires 0 <= k < |before| && current in cost
    requires rest == before[..k] + before[k + 1..]
    requires forall j :: 0 <= j < |before| ==> before[j].cell in cost
    requires cost' == Relaxed(m, cost, current, |PathDirections|)
    requires open == PushedOnto(m, cost, current, anchor, rest, |PathDirections|)
    ensures forall j :: 0 <= j < |open| ==> open[j].cell in cost'
  {
    RelaxedKeys(m, cost, current);
    PushedEntries(m, cost, current, anchor, rest);
    TakeOut(before, k, rest);
    forall j | 0 <= j < |open|
      ensures open[j].cell in cost'
    {
      if j < |rest| {
        assert open[j] == open[..|rest|][j];
      }
    }
  }

  /**
   * After taking entry `k` off the open list and expanding its tile, every
   * tile reached is still queued or expanded.
   */
  lemma SearchStep(m: Map, goal: Goal, anchor: Cell, before: seq<Entry>, k: int, rest: seq<Entry>,
                   cost: map<Cell, int>, current: Cell, open: seq<Entry>, cost': map<Cell, int>)
    requires m.Valid() && forall c :: c in cost ==> m.InBounds(c)
    requires 0 <= k < |before| && before[k].cell == current && current in cost && !IsGoal(m, goal, current)
    requires rest == before[..k] + before[k + 1..]
    requires forall c :: c in cost ==> Queued(before, c) || Expanded(m, goal, cost, c)
    requires cost' == Relaxed(m, cost, current, |PathDirections|)
    requires open == PushedOnto(m, cost, current, anchor, rest, |PathDirections|)
    requires forall c :: c in cost' ==> m.InBounds(c)
    ensures forall c :: c in cost' ==> Queued(open, c) || Expanded(m, goal, cost', c)
  {
    RelaxedKeys(m, cost, current);
    PushedEntries(m, cost, current, anchor, rest);
    TakeOut(before, k, rest);
    ExpandedCurrent(m, goal, cost, cost', current);
    forall c | c in cost'
      ensures Queued(open, c) || Expanded(m, goal, cost', c)
    {
      if c in cost && c != current {
        if Queued(before, c) {
          QueuedPrefix(open, rest, c);
        } else {
          assert Expanded(m, goal, cost, c);
        }
      }
    }
  }

  /** Once its neighbours are relaxed, the tile taken off is expanded. */
  lemma ExpandedCurrent(m: Map, goal: Goal, cost: map<Cell, int>, cost': map<Cell, int>, current: Cell)
    requires m.Valid() && current in cost && m.InBounds(current) && !IsGoal(m, goal, current)
    requires forall c :: c in cost' <==> c in cost || Improves(m, cost, current, c)
    ensures Expanded(m, goal, cost', current)
  {
    forall i | 0 <= i < |PathDirections| && m.InBounds(Neighbour(current, i))
      ensures Neighbour(current, i) in cost'
    {
      NeighbourDir(current, i);
    }
  }

  /**
   * A target taken off the open list yields the chain of predecessors
   * leading to it, which is a route unless the target is `start` itself.
   */
  lemma FoundOutcome(m: Map, goal: Goal, start: Cell, cost: map<Cell, int>, cameFrom: map<Cell, Cell>, current: Cell)
    requires m.Valid() && m.InBounds(start) && SearchTree(m, goal, start, cost, cameFrom)
    requires current in cost && IsGoal(m, goal, current)
    requires IsGoal(m, goal, start) ==> current == start
    ensures Descending(cameFrom, cost)
    ensures SearchOutcome(m, goal, start, Some(ChainTo(cameFrom, cost, current)))
  {
    ChainShape(m, goal, start, cost, cameFrom, current);
    ChainCosts(cameFrom, cost, current);
    var p := ChainTo(cameFrom, cost, current);
    forall i, j | 0 <= i < j < |p|
      ensures p[i] != p[j]
    {
      assert cost[p[i]] < cost[p[j]];
    }
  }

  /**
   * When the open list is empty every tile reached is expanded, so every
   * tile of the map is reached and none is a target.
   */
  lemma SearchExhausted(m: Map, goal: Goal, start: Cell, cost: map<Cell, int>, cameFrom: map<Cell, Cell>)
    requires m.Valid() && SearchTree(m, goal, start, cost, cameFrom)
    requires m.InBounds(start)
    requires forall c :: c in cost ==> Queued([], c) || Expanded(m, goal, cost, c)
    ensures forall c :: m.InBounds(c) ==> !IsGoal(m, goal, c)
    ensures SearchOutcome(m, goal, start, None)
  {
    assert Closed(m, cost.Keys) by {
      forall c | c in cost.Keys
        ensures NeighboursIn(m, cost.Keys, c)
      {
        assert Expanded(m, goal, cost, c);
      }
    }
    forall c | m.InBounds(c)
      ensures !IsGoal(m, goal, c)
    {
      ClosedReachesAll(m, cost.Keys, start, c);
      assert Expanded(m, goal, cost, c);
    }
  }
}
