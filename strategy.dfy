/**
 * `StrategieNo1`, the per-tick controller of a player's villagers: each unit
 * takes at most one step, towards the Town Center when it is heading home,
 * otherwise towards the resource with the shortest path, harvesting or
 * depositing on arrival; then the player's AI updates its population and
 * tries one build.
 */
module Strategy {
  import opened Wrappers
  import opened Grid
  import opened Paths
  import opened Units
  import Economy

  /** A resource a villager has decided to walk to, and the path it follows. */
  datatype Choice = Choice(resource: Resource, path: seq<Cell>)

  /** A path the strategy can follow: one was found and it is not empty (Python's `if path`). */
  predicate Usable(p: Option<seq<Cell>>)
  {
    p.Some? && p.value != []
  }

  /** `a` is strictly shorter than `b`, an unusable path counting as infinitely long. */
  predicate Shorter(a: Option<seq<Cell>>, b: Option<seq<Cell>>)
  {
    Usable(a) && (!Usable(b) || |a.value| < |b.value|)
  }

  /** The path found for resource `r`. */
  function Candidate(r: Resource, food: Option<seq<Cell>>, wood: Option<seq<Cell>>, gold: Option<seq<Cell>>): Option<seq<Cell>>
  {
    match r
    case Food => food
    case Wood => wood
    case Gold => gold
  }

  /** The position of a resource in the strategy's table: Food, then Wood, then Gold. */
  function Rank(r: Resource): nat
  {
    match r
    case Food => 0
    case Wood => 1
    case Gold => 2
  }

  /** The search target that leads to resource `r`. */
  function GoalFor(r: Resource): Goal
  {
    match r
    case Food => FarmGoal
    case Wood => WoodGoal
    case Gold => GoldGoal
  }

  /**
   * The choice of `execute`: `min` over the table Food, Wood, Gold keyed by
   * path length, where a missing or empty path counts as infinite.  The
   * result is a shortest usable path, the first such in table order, and
   * nothing when no path is usable.
   */
  function ChooseNearest(food: Option<seq<Cell>>, wood: Option<seq<Cell>>, gold: Option<seq<Cell>>): (c: Option<Choice>)
    ensures c.None? <==> !Usable(food) && !Usable(wood) && !Usable(gold)
    ensures c.Some? ==> c.value.path != [] && Candidate(c.value.resource, food, wood, gold) == Some(c.value.path)
    ensures c.Some? ==> forall r :: Usable(Candidate(r, food, wood, gold)) ==>
      |c.value.path| <= |Candidate(r, food, wood, gold).value|
    ensures c.Some? ==> forall r :: Rank(r) < Rank(c.value.resource) && Usable(Candidate(r, food, wood, gold)) ==>
      |c.value.path| < |Candidate(r, food, wood, gold).value|
  {
    var (r1, p1) := if Shorter(wood, food) then (Wood, wood) else (Food, food);
    var (r2, p2) := if Shorter(gold, p1) then (Gold, gold) else (r1, p1);
    if Usable(p2) then Some(Choice(r2, p2.value)) else None
  }

  /** Every building standing on the map. */
  ghost function BuildingsOn(m: Map): set<Building>
    reads m.grid
    requires m.Valid()
  {
    set r, c | 0 <= r < m.height && 0 <= c < m.width && m.grid[r, c].building != null :: m.grid[r, c].building
  }

  /** A map whose tiles keep their buildings has no building it did not have. */
  twostate lemma BuildingsStay(m: Map)
    requires m.Valid()
    requires forall r, c :: 0 <= r < m.height && 0 <= c < m.width ==> m.grid[r, c].building == old(m.grid[r, c].building)
    ensures BuildingsOn(m) <= old(BuildingsOn(m))
  {
    forall b | b in BuildingsOn(m)
      ensures b in old(BuildingsOn(m))
    {
      var r, c :| 0 <= r < m.height && 0 <= c < m.width && m.grid[r, c].building == b;
      assert old(m.grid[r, c].building) == b;
    }
  }

  /** Every tile of the map is as it was. */
  twostate predicate MapUnchanged(m: Map)
    reads m.grid
  {
    forall r, c :: 0 <= r < m.grid.Length0 && 0 <= c < m.grid.Length1 ==> m.grid[r, c] == old(m.grid[r, c])
  }

  /**
   * Every tile keeps its building, and every building on the map but
   * `except` keeps its occupancy and its food.
   */
  twostate predicate BuildingsKept(m: Map, except: Building?)
    reads m.grid, BuildingsOn(m)
    requires m.Valid()
  {
    forall r, c :: 0 <= r < m.height && 0 <= c < m.width ==>
      m.grid[r, c].building == old(m.grid[r, c].building)
      && (m.grid[r, c].building != null && m.grid[r, c].building != except ==>
            m.grid[r, c].building.occupied == old(m.grid[r, c].building.occupied)
            && m.grid[r, c].building.foodCapacity == old(m.grid[r, c].building.foodCapacity))
  }

  /**
   * The building a unit following `plan` works: the farm on the tile it
   * steps onto, when that tile ends a route to food; none otherwise.
   */
  ghost function FarmWorked(m: Map, plan: Option<Choice>): Building?
    reads m.grid
    requires m.Valid()
  {
    if plan.Some? && plan.value.resource == Food && |plan.value.path| == 1 && m.InBounds(plan.value.path[0])
    then m.At(plan.value.path[0]).building
    else null
  }

  /**
   * The branch of `execute` for a unit heading home from `start`, which
   * leaves the map alone: `route` is the outcome of the search for
   * `buildings[0]` (none when the unit already stands there), and the unit
   * steps onto its first tile, or stays put without a route.
   * Landing on `buildings[0]` it deposits there, which credits the load when
   * that building is a Town Center and the unit carries something, and it
   * stops heading home; short of it nothing else changes.  Its farm and
   * harvest timer are left alone either way.
   */
  twostate predicate WentHome(u: Unit, start: Cell, buildings: seq<Building>, m: Map, new route: Option<seq<Cell>>)
    reads u, u.ai, m.grid
    requires m.Valid() && m.InBounds(start) && |buildings| > 0
  {
    var home := (buildings[0].x, buildings[0].y);
    var deposit := buildings[0].kind == TownCenter && old(u.currentResource).Some?;
    (start == home ==> route.None?)
    && (start != home ==> SearchOutcome(m, TownCenterGoal(buildings[0]), start, route))
    && (route.Some? ==> route.value != [] && (u.x, u.y) == route.value[0])
    && (route.None? ==> (u.x, u.y) == start)
    && u.workingFarm == old(u.workingFarm) && u.actionEndTime == old(u.actionEndTime)
    && if route.Some? && (u.x, u.y) == home then
         !u.returningToTownCenter
         && u.ai.resources == (if deposit then Economy.Credited(old(u.ai.resources), old(u.currentResource).value, old(u.resourceCollected)) else old(u.ai.resources))
         && u.resourceCollected == (if deposit then 0 else old(u.resourceCollected))
         && u.currentResource == (if deposit then None else old(u.currentResource))
       else
         u.returningToTownCenter == old(u.returningToTownCenter) && u.ai.resources == old(u.ai.resources)
         && u.resourceCollected == old(u.resourceCollected) && u.currentResource == old(u.currentResource)
  }

  /** `execute` for a unit heading home: it acts as `WentHome` says, `route` being the search it makes. */
  method StepHome(u: Unit, buildings: seq<Building>, m: Map) returns (ghost route: Option<seq<Cell>>)
    requires m.Valid() && u.Valid() && m.InBounds((u.x, u.y)) && |buildings| > 0 && u.returningToTownCenter
    modifies u`x, u`y, u`resourceCollected, u`returningToTownCenter, u`currentResource, u.ai`resources
    ensures u.Valid() && m.InBounds((u.x, u.y)) && u.ai.resources.Keys == old(u.ai.resources.Keys)
    ensures (u.x, u.y) == old((u.x, u.y)) || Adjacent(old((u.x, u.y)), (u.x, u.y))
    ensures WentHome(u, old((u.x, u.y)), buildings, m, route)
  {
    var path := u.FindNearestTownCenter(m, buildings);
    route := path;
    if path.Some? && path.value != [] {
      var next := path.value[0];
      u.Move(next.0, next.1);
      if (u.x, u.y) == (buildings[0].x, buildings[0].y) {
        u.DepositResource(buildings[0]);
        u.returningToTownCenter := false;
      }
    }
  }

  /**
   * What a step along `path` towards `resource` does at time `now` besides
   * moving.  Towards Wood or Gold the unit harvests whatever the new tile
   * holds, as `gather_resource` does: it takes `min(20, room)`, carries the
   * tile's element id, heads home once full, and the tile loses its resource.
   * Towards Food the map keeps its tiles; a step onto the farm at the end of
   * the path binds the unit to that farm and works it as `WorkedFarm` says,
   * while a step short of it changes nothing else.
   */
  twostate predicate Advanced(u: Unit, m: Map, now: int, new resource: Resource, new path: seq<Cell>)
    reads u, m.grid, BuildingsOn(m)
    requires m.Valid() && path != [] && m.InBounds(path[0])
  {
    var (x, y) := path[0];
    if resource != Food then
      var t := old(m.grid[y, x]);
      u.workingFarm == old(u.workingFarm) && u.actionEndTime == old(u.actionEndTime)
      && (t.resource.None? ==>
            u.resourceCollected == old(u.resourceCollected) && u.currentResource == old(u.currentResource)
            && u.returningToTownCenter == old(u.returningToTownCenter) && m.grid[y, x] == t)
      && (t.resource.Some? ==>
            var id := t.elementId.GetOr(t.resource.value);
            u.resourceCollected == old(u.resourceCollected) + Min(HarvestBatch, MaxCapacity - old(u.resourceCollected))
            && u.currentResource == Some(id)
            && u.returningToTownCenter == (old(u.returningToTownCenter) || u.resourceCollected >= MaxCapacity)
            && m.grid[y, x] == t.(resource := None, elementId := Some(id)))
      && forall r, c :: 0 <= r < m.height && 0 <= c < m.width && (c, r) != (x, y) ==> m.grid[r, c] == old(m.grid[r, c])
    else
      MapUnchanged(m)
      && var farm := m.grid[y, x].building;
      if |path| == 1 then
        farm != null && farm.kind == Farm && farm in BuildingsOn(m) && WorkedFarm(u, farm, now)
      else
        u.resourceCollected == old(u.resourceCollected) && u.currentResource == old(u.currentResource)
        && u.returningToTownCenter == old(u.returningToTownCenter)
        && u.workingFarm == old(u.workingFarm) && u.actionEndTime == old(u.actionEndTime)
  }

  /**
   * The end of that branch, once the unit has chosen to walk `path` towards
   * `resource`: it steps onto the first tile; towards Wood or Gold it then
   * harvests there, towards Food it binds itself to the farm on that tile,
   * if there is one, and works it.
   */
  method Advance(u: Unit, m: Map, now: int, resource: Resource, path: seq<Cell>)
    requires m.Valid() && u.Valid() && IsRoute(m, GoalFor(resource), (u.x, u.y), path)
    modifies u, m.grid, BuildingsOn(m)
    ensures u.Valid() && (u.x, u.y) == path[0]
    ensures forall r, c :: 0 <= r < m.height && 0 <= c < m.width ==> m.grid[r, c].building == old(m.grid[r, c].building)
    ensures Advanced(u, m, now, resource, path)
    ensures BuildingsKept(m, FarmWorked(m, Some(Choice(resource, path))))
  {
    var next := path[0];
    u.Move(next.0, next.1);
    if resource == Food {
      var tile := m.At((u.x, u.y));
      if tile.building != null && tile.building.kind == Farm {
        assert tile.building == m.grid[u.y, u.x].building;
        u.workingFarm := tile.building;
        u.GatherFoodFromFarm(now);
      }
    } else {
      u.GatherResource(m);
    }
  }

  /**
   * The first half of that branch: the farm, wood and gold searches from
   * the unit's tile, and the choice among them.  The choice is a route to
   * its resource.
   */
  method Survey(u: Unit, m: Map) returns (food: Option<seq<Cell>>, wood: Option<seq<Cell>>, gold: Option<seq<Cell>>,
                                          choice: Option<Choice>)
    requires m.Valid() && m.InBounds((u.x, u.y))
    ensures Surveyed(m, (u.x, u.y), Searches(food, wood, gold))
    ensures choice == ChooseNearest(food, wood, gold)
    ensures choice.Some? ==> IsRoute(m, GoalFor(choice.value.resource), (u.x, u.y), choice.value.path)
  {
    food := u.FindNearestFarm(m);
    wood := u.FindNearestWood(m);
    gold := u.FindNearestGold(m);
    assert Surveyed(m, (u.x, u.y), Searches(food, wood, gold));
    choice := ChooseNearest(food, wood, gold);
    if choice.Some? {
      match choice.value.resource
      case Food => assert food == Some(choice.value.path);
      case Wood => assert wood == Some(choice.value.path);
      case Gold => assert gold == Some(choice.value.path);
    }
  }

  /** The routes the three searches of `execute` found, to a farm, to wood and to gold. */
  datatype Searches = Searches(food: Option<seq<Cell>>, wood: Option<seq<Cell>>, gold: Option<seq<Cell>>)

  /**
   * What the three searches from `start` promise: the wood and gold searches
   * are `find_path`'s outcome; a farm route leads to a farm that is neither
   * occupied nor exhausted, and there is none when the unit stands on a farm
   * or the map has no farm.
   */
  ghost predicate Surveyed(m: Map, start: Cell, found: Searches)
    reads m.grid, BuildingsOn(m)
    requires m.Valid() && m.InBounds(start)
  {
    var Searches(food, wood, gold) := found;
    SearchOutcome(m, WoodGoal, start, wood)
    && SearchOutcome(m, GoldGoal, start, gold)
    && (food.Some? ==> IsRoute(m, FarmGoal, start, food.value)
                       && var b := m.At(food.value[|food.value| - 1]).building; !b.IsOccupied() && !b.IsEmpty())
    && (IsGoal(m, FarmGoal, start) || (forall c :: m.InBounds(c) ==> !IsGoal(m, FarmGoal, c)) ==> food.None?)
  }

  /**
   * What a unit out harvesting from `start` does with the `plan` it chose,
   * a route to its resource in the old state: with a plan it steps onto
   * the route's first tile and acts as `Advanced` says, with none it, the
   * map and its buildings stay as they were.
   */
  twostate predicate Followed(u: Unit, start: Cell, m: Map, now: int, new plan: Option<Choice>)
    reads u, m.grid, BuildingsOn(m)
    requires m.Valid() && m.InBounds(start)
  {
    (plan.None? ==>
          (u.x, u.y) == start && u.resourceCollected == old(u.resourceCollected)
          && u.currentResource == old(u.currentResource) && u.returningToTownCenter == old(u.returningToTownCenter)
          && u.workingFarm == old(u.workingFarm) && u.actionEndTime == old(u.actionEndTime)
          && MapUnchanged(m))
    && (plan.Some? ==>
          old(IsRoute(m, GoalFor(plan.value.resource), start, plan.value.path))
          && m.InBounds(plan.value.path[0]) && (u.x, u.y) == plan.value.path[0]
          && Advanced(u, m, now, plan.value.resource, plan.value.path))
  }

  /**
   * The branch of `execute` for a unit out harvesting from `start`, given
   * the routes its three searches `found` made in the old state: `plan`
   * is `ChooseNearest` of them, and the unit follows it as `Followed` says.
   */
  twostate predicate WentOut(u: Unit, start: Cell, m: Map, now: int,
                             new found: Searches, new plan: Option<Choice>)
    reads u, m.grid, BuildingsOn(m)
    requires m.Valid() && m.InBounds(start)
  {
    old(Surveyed(m, start, found))
    && plan == ChooseNearest(found.food, found.wood, found.gold)
    && Followed(u, start, m, now, plan)
  }

  /** `execute` for a unit out harvesting: it acts as `WentOut` says, `found` being the searches it makes. */
  method StepOut(u: Unit, m: Map, now: int) returns (ghost found: Searches, ghost plan: Option<Choice>)
    requires m.Valid() && u.Valid() && m.InBounds((u.x, u.y))
    modifies u, m.grid, BuildingsOn(m)
    ensures u.Valid() && m.InBounds((u.x, u.y))
    ensures (u.x, u.y) == old((u.x, u.y)) || Adjacent(old((u.x, u.y)), (u.x, u.y))
    ensures forall r, c :: 0 <= r < m.height && 0 <= c < m.width ==> m.grid[r, c].building == old(m.grid[r, c].building)
    ensures WentOut(u, old((u.x, u.y)), m, now, found, plan)
    ensures BuildingsKept(m, FarmWorked(m, plan))
  {
    var food, wood, gold, choice := Survey(u, m);
    found, plan := Searches(food, wood, gold), choice;
    assert old(Surveyed(m, (u.x, u.y), found));
    if choice.Some? {
      var resource, path := choice.value.resource, choice.value.path;
      assert old(IsRoute(m, GoalFor(resource), (u.x, u.y), path));
      Advance(u, m, now, resource, path);
    }
  }

  /**
   * The body of `execute`'s loop: a unit heading home goes on home, any
   * other goes out harvesting; the ghost results are the searches made.
   */
  method StepUnit(u: Unit, buildings: seq<Building>, m: Map, now: int)
    returns (ghost route: Option<seq<Cell>>, ghost found: Searches, ghost plan: Option<Choice>)
    requires m.Valid() && u.Valid() && m.InBounds((u.x, u.y)) && |buildings| > 0
    modifies u, m.grid, u.ai`resources, BuildingsOn(m)
    ensures u.Valid() && m.InBounds((u.x, u.y))
    ensures (u.x, u.y) == old((u.x, u.y)) || Adjacent(old((u.x, u.y)), (u.x, u.y))
    ensures u.ai.resources.Keys == old(u.ai.resources.Keys)
    ensures !old(u.returningToTownCenter) ==> u.ai.resources == old(u.ai.resources)
    ensures forall r, c :: 0 <= r < m.height && 0 <= c < m.width ==> m.grid[r, c].building == old(m.grid[r, c].building)
    ensures old(u.returningToTownCenter) ==>
      MapUnchanged(m) && BuildingsKept(m, null) && WentHome(u, old((u.x, u.y)), buildings, m, route)
    ensures !old(u.returningToTownCenter) ==>
      WentOut(u, old((u.x, u.y)), m, now, found, plan) && BuildingsKept(m, FarmWorked(m, plan))
  {
    route, found, plan := None, Searches(None, None, None), None;
    if u.returningToTownCenter {
      route := StepHome(u, buildings, m);
    } else {
      found, plan := StepOut(u, m, now);
    }
  }

  /**
   * The loop of `execute`: the units, all of the player whose AI is `ai`,
   * are stepped once each in list order, as `StepUnit` says, so that each
   * ends on its tile or a neighbouring one.  The AI's buildings and
   * population and the buildings on the map stay as they were.
   */
  method StepAll(units: seq<Unit>, buildings: seq<Building>, m: Map, ai: Economy.AI, now: int)
    requires m.Valid() && ai.Valid() && |buildings| > 0
    requires forall u :: u in units ==> u.ai == ai && u.Valid() && m.InBounds((u.x, u.y))
    requires forall i, j :: 0 <= i < j < |units| ==> units[i] != units[j]
    modifies (set u | u in units), m.grid, ai`resources, BuildingsOn(m)
    ensures forall u :: u in units ==>
      u.Valid() && m.InBounds((u.x, u.y)) && ((u.x, u.y) == old((u.x, u.y)) || Adjacent(old((u.x, u.y)), (u.x, u.y)))
    ensures ai.Valid() && ai.resources.Keys == old(ai.resources.Keys)
    ensures forall r, c :: 0 <= r < m.height && 0 <= c < m.width ==> m.grid[r, c].building == old(m.grid[r, c].building)
  {
    for i := 0 to |units|
      invariant ai.Valid() && ai.resources.Keys == old(ai.resources.Keys)
      invariant forall j :: 0 <= j < |units| ==> units[j].Valid() && m.InBounds((units[j].x, units[j].y))
      invariant forall j :: 0 <= j < i ==>
        (units[j].x, units[j].y) == old((units[j].x, units[j].y)) || Adjacent(old((units[j].x, units[j].y)), (units[j].x, units[j].y))
      invariant forall j :: i <= j < |units| ==> (units[j].x, units[j].y) == old((units[j].x, units[j].y))
      invariant forall r, c :: 0 <= r < m.height && 0 <= c < m.width ==> m.grid[r, c].building == old(m.grid[r, c].building)
    {
      BuildingsStay(m);
      ghost var route, found, plan := StepUnit(units[i], buildings, m, now);
    }
  }

  /**
   * `StrategieNo1.execute` at time `now`, given the AI's own building list
   * as `buildings`: the units are stepped as `StepAll` says; then the population is updated by 0 and the AI makes one build
   * attempt, which adds at most one building, a farm.
   */
  method Execute(units: seq<Unit>, buildings: seq<Building>, m: Map, ai: Economy.AI, now: int)
    requires m.Valid() && ai.Valid() && buildings == ai.buildings
    requires forall u :: u in units ==> u.ai == ai && u.Valid() && m.InBounds((u.x, u.y))
    requires forall i, j :: 0 <= i < j < |units| ==> units[i] != units[j]
    modifies (set u | u in units), m.grid, ai, BuildingsOn(m)
    ensures forall u :: u in units ==>
      u.Valid() && m.InBounds((u.x, u.y)) && ((u.x, u.y) == old((u.x, u.y)) || Adjacent(old((u.x, u.y)), (u.x, u.y)))
    ensures ai.Valid() && ai.population == old(ai.population)
    ensures |old(ai.buildings)| <= |ai.buildings| <= |old(ai.buildings)| + 1
    ensures forall r, c :: 0 <= r < m.height && 0 <= c < m.width ==>
      m.grid[r, c].building == old(m.grid[r, c].building) || fresh(m.grid[r, c].building)
    ensures ai.buildings[..|old(ai.buildings)|] == old(ai.buildings)
    ensures |ai.buildings| > |old(ai.buildings)| ==> ai.buildings[|old(ai.buildings)|].kind == Farm
  {
    StepAll(units, buildings, m, ai, now);
    ai.UpdatePopulation(0);
    ai.Build(m);
  }
}
