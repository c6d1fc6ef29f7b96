/**
 * The map of model.py: tiles, buildings, and the procedural placement of
 * resource clusters.
 *
 * A tile is a value stored in a two-dimensional array indexed `[y, x]`, as the
 * source's list of rows is.  Buildings are objects: a tile refers to the
 * building standing on it, and the same object is held by its owner's
 * building list and, for a farm, by the villager working it.
 */
module Grid {
  import opened Wrappers

  /** The resource names the source stores in tiles and ledgers. */
  datatype Resource = Wood | Gold | Food

  /** The building types of `Building.costs`. */
  datatype BuildingKind = TownCenter | House | Barracks | Farm

  /** A map position `(x, y)`. */
  type Cell = (int, int)

  /** The player a building or unit belongs to when none is given (model.py `Joueur`). */
  const DefaultPlayer: string := "J1"

  /** Food a new farm holds. */
  const FarmFood: int := 300

  /** Population room a house adds. */
  const HousePopulation: int := 5

  /** The 8 moves to a neighbouring tile, in the order `_create_cluster` lists them. */
  const ClusterDirections: seq<Cell> := [(0, 1), (1, 0), (0, -1), (-1, 0), (1, 1), (-1, -1), (-1, 1), (1, -1)]

  /** `b` is one of the 8 tiles around `a` (diagonals included). */
  predicate Adjacent(a: Cell, b: Cell)
  {
    a != b && -1 <= a.0 - b.0 <= 1 && -1 <= a.1 - b.1 <= 1
  }

  /** The 8 cluster moves reach exactly the tiles around a tile: `i` is the move from `a` to `b`. */
  lemma ClusterDirection(a: Cell, b: Cell) returns (i: int)
    requires Adjacent(a, b)
    ensures 0 <= i < |ClusterDirections| && b == (a.0 + ClusterDirections[i].0, a.1 + ClusterDirections[i].1)
  {
    var d := (b.0 - a.0, b.1 - a.1);
    i := if d == (0, 1) then 0 else if d == (1, 0) then 1 else if d == (0, -1) then 2 else if d == (-1, 0) then 3
         else if d == (1, 1) then 4 else if d == (-1, -1) then 5 else if d == (-1, 1) then 6 else 7;
  }

  /** `Building.costs`: the construction recipe of each building type. */
  function CostOf(kind: BuildingKind): (cost: map<Resource, int>)
    ensures cost.Keys == {Wood, Gold}
    ensures cost[Gold] == 0 <==> kind == House || kind == Farm
  {
    match kind
    case TownCenter => map[Wood := 200, Gold := 50]
    case House => map[Wood := 50, Gold := 0]
    case Barracks => map[Wood := 150, Gold := 50]
    case Farm => map[Wood := 60, Gold := 0]
  }

  /** The source's display name of a building type. */
  function KindName(kind: BuildingKind): string
  {
    match kind
    case TownCenter => "Town Center"
    case House => "House"
    case Barracks => "Barracks"
    case Farm => "Farm"
  }

  /** The source's name of a resource. */
  function ResourceName(r: Resource): string
  {
    match r
    case Wood => "Wood"
    case Gold => "Gold"
    case Food => "Food"
  }

  /**
   * One map square: the resource lying on it, the building standing on it
   * (`null` for Python's `None`), whether a unit stands on it, and the id of
   * the network element a first harvest attaches to it (the resource name
   * harvested then; see `Units.Unit.GatherResource`).
   */
  datatype Tile = Tile(resource: Option<Resource>, building: Building?, hasUnit: bool, elementId: Option<Resource>)

  /** A freshly made `Tile()`. */
  const EmptyTile: Tile := Tile(None, null, false, None)

  /** model.py `Building`. */
  class Building {
    const kind: BuildingKind
    const x: int
    const y: int
    const owner: string
    const populationCapacity: int
    /** The per-building stock the source initialises and never changes. */
    const resources: map<Resource, int>
    var occupied: bool
    /** Food left in a farm; the source only gives farms this attribute. */
    var foodCapacity: int

    /** `Building(building_type, x, y, owner)`; a missing owner becomes `Joueur`. */
    constructor (kind: BuildingKind, x: int, y: int, owner: Option<string>)
      ensures this.kind == kind && this.x == x && this.y == y
      ensures this.owner == owner.GetOr(DefaultPlayer)
      ensures populationCapacity == (if kind == House then HousePopulation else 0)
      ensures resources == map[Wood := 0, Gold := 0, Food := 0]
      ensures !occupied
      ensures kind == Farm ==> foodCapacity == FarmFood
    {
      this.kind := kind;
      this.x := x;
      this.y := y;
      this.owner := owner.GetOr(DefaultPlayer);
      populationCapacity := if kind == House then HousePopulation else 0;
      resources := map[Wood := 0, Gold := 0, Food := 0];
      occupied := false;
      foodCapacity := if kind == Farm then FarmFood else 0;
    }

    /** `get_construction_cost`. */
    function GetConstructionCost(): (cost: map<Resource, int>)
      ensures cost == CostOf(kind)
      ensures cost[Wood] >= 50
    {
      CostOf(kind)
    }

    /**
     * `gather_food`: take up to `amount` food out of the farm.  What is taken
     * is exactly what the farm loses, and a farm never goes below zero when
     * the request is not negative.
     */
    method GatherFood(amount: int) returns (gathered: int)
      requires kind == Farm
      modifies this`foodCapacity
      ensures old(foodCapacity) > 0 ==> gathered == (if amount < old(foodCapacity) then amount else old(foodCapacity))
      ensures old(foodCapacity) <= 0 ==> gathered == 0
      ensures foodCapacity == old(foodCapacity) - gathered
      ensures amount >= 0 && old(foodCapacity) >= 0 ==> 0 <= gathered <= amount && foodCapacity >= 0
    {
      if foodCapacity > 0 {
        gathered := if amount < foodCapacity then amount else foodCapacity;
        foodCapacity := foodCapacity - gathered;
        return;
      }
      gathered := 0;
    }

    /** `is_empty`: the farm has no food left. */
    predicate IsEmpty()
      reads this
      requires kind == Farm
    {
      foodCapacity <= 0
    }

    /** `is_occupied`. */
    predicate IsOccupied()
      reads this
    {
      occupied
    }

    /** `occupy`: a villager claims the farm. */
    method Occupy()
      modifies this`occupied
      ensures occupied
    {
      occupied := true;
    }

    /** `free`: the villager releases the farm. */
    method Free()
      modifies this`occupied
      ensures !occupied
    {
      occupied := false;
    }
  }

  /** The `i`-th tile of `s` touches one listed before it. */
  ghost predicate TouchesEarlier(s: seq<Cell>, i: int)
    requires 0 <= i < |s|
  {
    exists j :: 0 <= j < i && Adjacent(s[j], s[i])
  }

  /**
   * The shape `_create_cluster` keeps while it grows from `origin`: the tiles
   * filled are distinct, the first is `origin`, every later one touches an
   * earlier one, and every frontier tile is the origin or touches a filled
   * tile (before the first fill the frontier holds at most the origin).
   */
  ghost predicate Growing(filled: seq<Cell>, origin: Cell, frontier: set<Cell>)
  {
    (forall i, j :: 0 <= i < j < |filled| ==> filled[i] != filled[j])
    && (|filled| > 0 ==> filled[0] == origin)
    && (forall i :: 0 < i < |filled| ==> TouchesEarlier(filled, i))
    && (|filled| == 0 ==> frontier <= {origin})
    && (forall c :: c in frontier ==> c == origin || exists j :: 0 <= j < |filled| && Adjacent(filled[j], c))
  }

  /** Dropping tiles from the frontier keeps the shape. */
  lemma GrowingShrinks(filled: seq<Cell>, origin: Cell, frontier: set<Cell>, smaller: set<Cell>)
    requires Growing(filled, origin, frontier) && smaller <= frontier
    ensures Growing(filled, origin, smaller)
  {
  }

  /**
   * One fill of `_create_cluster`: filling a frontier tile not yet filled,
   * then replacing the frontier by one that holds only frontier tiles and
   * neighbours of the new tile, keeps the shape.
   */
  lemma {:induction false} ClusterGrows(filled: seq<Cell>, current: Cell, origin: Cell, frontier: set<Cell>, grown: set<Cell>)
    requires Growing(filled, origin, frontier) && current in frontier && current !in filled
    requires forall c :: c in grown ==> c in frontier || Adjacent(current, c)
    ensures Growing(filled + [current], origin, grown)
  {
    var filled' := filled + [current];
    forall i, j | 0 <= i < j < |filled'|
      ensures filled'[i] != filled'[j]
    {
      assert filled'[i] == filled[i];
      if j < |filled| {
        assert filled'[j] == filled[j];
      }
    }
    forall i | 0 < i < |filled'|
      ensures TouchesEarlier(filled', i)
    {
      if i < |filled| {
        assert TouchesEarlier(filled, i);
        var j :| 0 <= j < i && Adjacent(filled[j], filled[i]);
        assert filled'[j] == filled[j] && filled'[i] == filled[i];
      } else {
        assert current != origin;
        var j :| 0 <= j < |filled| && Adjacent(filled[j], current);
        assert filled'[j] == filled[j] && filled'[i] == current;
      }
    }
    forall c | c in grown && c != origin
      ensures exists j :: 0 <= j < |filled'| && Adjacent(filled'[j], c)
    {
      if c in frontier {
        var j :| 0 <= j < |filled| && Adjacent(filled[j], c);
        assert filled'[j] == filled[j];
      } else {
        assert Adjacent(filled'[|filled|], c);
      }
    }
  }

  /** Dropping a tile that cannot be filled from the frontier keeps every tile around the cluster accounted for. */
  lemma SurroundedShrinks(m: Map, filled: seq<Cell>, current: Cell, pool: set<Cell>)
    requires m.Valid() && m.Surrounded(filled, pool) && !m.Fillable(current)
    ensures m.Surrounded(filled, pool - {current})
  {
  }

  /** model.py `Map`: a `width` by `height` grid of tiles. */
  class Map {
    const width: nat
    const height: nat
    const seed: int
    /** `grid[y, x]` is the tile at `(x, y)`. */
    const grid: array2<Tile>

    /** The grid has the map's dimensions. */
    predicate Valid()
    {
      grid.Length0 == height && grid.Length1 == width
    }

    /** `Map(width, height, seed)`: every tile empty.  The random source is not modelled. */
    constructor (width: nat, height: nat, seed: int)
      ensures this.width == width && this.height == height && this.seed == seed
      ensures Valid() && fresh(grid)
      ensures forall y, x :: 0 <= y < height && 0 <= x < width ==> grid[y, x] == EmptyTile
    {
      this.width := width;
      this.height := height;
      this.seed := seed;
      grid := new Tile[height, width]((_, _) => EmptyTile);
    }

    predicate InBounds(c: Cell)
    {
      0 <= c.0 < width && 0 <= c.1 < height
    }

    /** The tile at `c`. */
    function At(c: Cell): Tile
      reads grid
      requires Valid() && InBounds(c)
    {
      grid[c.1, c.0]
    }

    /**
     * `is_empty`: `(x, y)` is on the map and its tile has no resource, no
     * building and no unit.
     */
    predicate IsEmpty(x: int, y: int)
      reads grid
      requires Valid()
      ensures IsEmpty(x, y) ==> InBounds((x, y)) && At((x, y)).resource == None && At((x, y)).building == null
      ensures !InBounds((x, y)) ==> !IsEmpty(x, y)
    {
      InBounds((x, y)) && grid[y, x].resource.None? && grid[y, x].building == null && !grid[y, x].hasUnit
    }

    /** `_create_cluster` may put a resource on the tile at `c`. */
    predicate Fillable(c: Cell)
      reads grid
      requires Valid()
    {
      InBounds(c) && At(c).resource.None? && At(c).building == null
    }

    /**
     * `_create_cluster`: grow a blob of `resourceType` from `(x, y)`.  A frontier
     * set starts as `{(x, y)}`; each round takes an arbitrary element of it
     * and, when that tile is on the map with neither resource nor building,
     * fills it, counts it against `size` and adds its on-map neighbours to the
     * frontier.  It stops when `size` tiles are filled or the frontier is empty.
     *
     * `filled` lists the tiles filled, in order.  At most `size` tiles are
     * filled; each was fillable before; only their resource changes; the first
     * is `(x, y)` and every later one touches an earlier one.  A fillable
     * origin is filled whenever `size` is positive, and a cluster smaller than
     * `size` has no fillable tile left around it.
     */
    method CreateCluster(x: int, y: int, size: int, resourceType: Resource) returns (ghost filled: seq<Cell>)
      requires Valid()
      modifies grid
      ensures |filled| <= (if size > 0 then size else 0)
      ensures |filled| > 0 ==> filled[0] == (x, y)
      ensures forall i :: 0 <= i < |filled| ==>
        InBounds(filled[i]) && old(grid[filled[i].1, filled[i].0].resource).None? && old(grid[filled[i].1, filled[i].0].building) == null
      ensures forall i, j :: 0 <= i < j < |filled| ==> filled[i] != filled[j]
      ensures forall i :: 0 < i < |filled| ==> TouchesEarlier(filled, i)
      ensures forall r, c :: 0 <= r < height && 0 <= c < width ==>
        grid[r, c] == if (c, r) in filled then old(grid[r, c]).(resource := Some(resourceType)) else old(grid[r, c])
      ensures size > 0 && old(Fillable((x, y))) ==> |filled| > 0
      ensures |filled| < size ==> Surrounded(filled, {})
    {
      var tilesToFill: set<Cell> := {(x, y)};
      var remaining := size;
      filled := [];
      while tilesToFill != {} && remaining > 0
        invariant remaining == size - |filled|
        invariant |filled| <= (if size > 0 then size else 0)
        invariant forall i :: 0 <= i < |filled| ==>
          InBounds(filled[i]) && old(grid[filled[i].1, filled[i].0].resource).None? && old(grid[filled[i].1, filled[i].0].building) == null
          && grid[filled[i].1, filled[i].0] == old(grid[filled[i].1, filled[i].0]).(resource := Some(resourceType))
        invariant Growing(filled, (x, y), tilesToFill)
        invariant forall r, c :: 0 <= r < height && 0 <= c < width && (c, r) !in filled ==> grid[r, c] == old(grid[r, c])
        invariant |filled| == 0 ==> tilesToFill == {(x, y)} || !old(Fillable((x, y)))
        invariant Surrounded(filled, tilesToFill)
        decreases remaining, |tilesToFill|
      {
        var current :| current in tilesToFill;
        ghost var pool := tilesToFill;
        tilesToFill := tilesToFill - {current};
        if InBounds(current) && grid[current.1, current.0].resource.None? && grid[current.1, current.0].building == null {
          ghost var before := filled;
          assert current !in filled && Fillable(current);
          tilesToFill := FillTile(current, resourceType, tilesToFill, filled, pool);
          remaining := remaining - 1;
          filled := filled + [current];
          forall i | 0 <= i < |filled|
            ensures InBounds(filled[i]) && old(grid[filled[i].1, filled[i].0].resource).None?
            ensures old(grid[filled[i].1, filled[i].0].building) == null
            ensures grid[filled[i].1, filled[i].0] == old(grid[filled[i].1, filled[i].0]).(resource := Some(resourceType))
          {
            if i < |before| {
              assert filled[i] == before[i] != current;
            }
          }
          forall r, c | 0 <= r < height && 0 <= c < width && (c, r) !in filled
            ensures grid[r, c] == old(grid[r, c])
          {
            assert (c, r) !in before;
          }
          ClusterGrows(before, current, (x, y), pool, tilesToFill);
        } else {
          GrowingShrinks(filled, (x, y), pool, tilesToFill);
          SurroundedShrinks(this, filled, current, pool);
          if |filled| == 0 && InBounds((x, y)) {
            assert grid[y, x] == old(grid[y, x]);
          }
        }
      }
      forall r, c | 0 <= r < height && 0 <= c < width && (c, r) in filled
        ensures grid[r, c] == old(grid[r, c]).(resource := Some(resourceType))
      {
        var i :| 0 <= i < |filled| && filled[i] == (c, r);
      }
    }

    /**
     * Every on-map tile around a tile of `filled` is still to be tried (in
     * `frontier`) or can no longer be filled.
     */
    ghost predicate Surrounded(filled: seq<Cell>, frontier: set<Cell>)
      reads grid
      requires Valid()
    {
      forall i, c :: 0 <= i < |filled| && Adjacent(filled[i], c) && InBounds(c) ==> c in frontier || !Fillable(c)
    }

    /**
     * One fill of `_create_cluster`: the tile `current`, just taken off the
     * frontier `pool`, gets the resource, and the rest of the frontier grows
     * by the on-map tiles around it.  Nothing else changes, and every tile
     * around the cluster, `filled` and now `current`, stays accounted for.
     */
    method FillTile(current: Cell, resourceType: Resource, frontier: set<Cell>, ghost filled: seq<Cell>, ghost pool: set<Cell>)
      returns (grown: set<Cell>)
      requires Valid() && Fillable(current) && Surrounded(filled, pool) && frontier == pool - {current}
      modifies grid
      ensures grid[current.1, current.0] == old(grid[current.1, current.0]).(resource := Some(resourceType))
      ensures forall r, c :: 0 <= r < height && 0 <= c < width && (c, r) != current ==> grid[r, c] == old(grid[r, c])
      ensures frontier <= grown
      ensures forall c :: c in grown ==> c in frontier || (Adjacent(current, c) && InBounds(c))
      ensures Surrounded(filled + [current], grown)
    {
      grid[current.1, current.0] := grid[current.1, current.0].(resource := Some(resourceType));
      grown := AddNeighbours(frontier, current);
      var filled' := filled + [current];
      forall i, c | 0 <= i < |filled'| && Adjacent(filled'[i], c) && InBounds(c)
        ensures c in grown || !Fillable(c)
      {
        if i < |filled| && c != current && c !in pool {
          assert filled'[i] == filled[i];
          assert grid[c.1, c.0] == old(grid[c.1, c.0]);
        }
      }
    }

    /**
     * The inner loop of `_create_cluster`: add every on-map neighbour of
     * `current` that is not yet in the frontier.
     */
    method AddNeighbours(frontier: set<Cell>, current: Cell) returns (grown: set<Cell>)
      ensures frontier <= grown
      ensures forall c :: c in grown ==> c in frontier || (Adjacent(current, c) && InBounds(c))
      ensures forall c :: Adjacent(current, c) && InBounds(c) ==> c in grown
    {
      grown := frontier;
      var i := 0;
      while i < |ClusterDirections|
        invariant 0 <= i <= |ClusterDirections|
        invariant frontier <= grown
        invariant forall c :: c in grown ==> c in frontier || (Adjacent(current, c) && InBounds(c))
        invariant forall k :: 0 <= k < i && InBounds((current.0 + ClusterDirections[k].0, current.1 + ClusterDirections[k].1)) ==>
          (current.0 + ClusterDirections[k].0, current.1 + ClusterDirections[k].1) in grown
      {
        var next := (current.0 + ClusterDirections[i].0, current.1 + ClusterDirections[i].1);
        if next !in grown && InBounds(next) {
          grown := grown + {next};
        }
        i := i + 1;
      }
      forall c | Adjacent(current, c) && InBounds(c)
        ensures c in grown
      {
        var k := ClusterDirection(current, c);
      }
    }

    /**
     * `generate_forest_clusters`: one Wood cluster of `clusterSize` tiles from
     * each origin.  The source draws the origins from the map's random source;
     * here they are given.  Only empty tiles turn into Wood; nothing else changes.
     */
    method GenerateForestClusters(origins: seq<Cell>, clusterSize: int)
      requires Valid()
      requires forall i :: 0 <= i < |origins| ==> InBounds(origins[i])
      modifies grid
      ensures forall r, c :: 0 <= r < height && 0 <= c < width ==>
        grid[r, c] == old(grid[r, c]) || (old(Fillable((c, r))) && grid[r, c] == old(grid[r, c]).(resource := Some(Wood)))
    {
      var k := 0;
      while k < |origins|
        invariant 0 <= k <= |origins|
        invariant forall r, c :: 0 <= r < height && 0 <= c < width ==>
          grid[r, c] == old(grid[r, c]) || (old(Fillable((c, r))) && grid[r, c] == old(grid[r, c]).(resource := Some(Wood)))
      {
        ghost var filled := CreateCluster(origins[k].0, origins[k].1, clusterSize, Wood);
        k := k + 1;
      }
    }

    /**
     * `generate_gold_clusters`: one Gold cluster from each origin, of the size
     * drawn for it (between 3 and 10 in the source).
     */
    method GenerateGoldClusters(origins: seq<Cell>, sizes: seq<int>)
      requires Valid()
      requires |sizes| == |origins|
      requires forall i :: 0 <= i < |origins| ==> InBounds(origins[i]) && 3 <= sizes[i] <= 10
      modifies grid
      ensures forall r, c :: 0 <= r < height && 0 <= c < width ==>
        grid[r, c] == old(grid[r, c]) || (old(Fillable((c, r))) && grid[r, c] == old(grid[r, c]).(resource := Some(Gold)))
    {
      var k := 0;
      while k < |origins|
        invariant 0 <= k <= |origins|
        invariant forall r, c :: 0 <= r < height && 0 <= c < width ==>
          grid[r, c] == old(grid[r, c]) || (old(Fillable((c, r))) && grid[r, c] == old(grid[r, c]).(resource := Some(Gold)))
      {
        ghost var filled := CreateCluster(origins[k].0, origins[k].1, sizes[k], Gold);
        k := k + 1;
      }
    }

    /**
     * `place_building`: on the map, the tile at `(x, y)` gets the building and,
     * for a farm, the Food marker; off the map nothing happens.
     */
    method PlaceBuilding(building: Building, x: int, y: int)
      requires Valid()
      modifies grid
      ensures forall r, c :: 0 <= r < height && 0 <= c < width && (c, r) != (x, y) ==> grid[r, c] == old(grid[r, c])
      ensures InBounds((x, y)) ==>
        grid[y, x] == old(grid[y, x]).(building := building,
                                      resource := if building.kind == Farm then Some(Food) else old(grid[y, x].resource))
    {
      if 0 <= x < width && 0 <= y < height {
        grid[y, x] := grid[y, x].(building := building);
        if building.kind == Farm {
          grid[y, x] := grid[y, x].(resource := Some(Food));
        }
      }
    }

    /** `place_tile`: replace the tile at `(x, y)` when it is on the map. */
    method PlaceTile(tile: Tile, x: int, y: int)
      requires Valid()
      modifies grid
      ensures forall r, c :: 0 <= r < height && 0 <= c < width ==>
        grid[r, c] == if (c, r) == (x, y) then tile else old(grid[r, c])
    {
      if 0 <= x < width && 0 <= y < height {
        grid[y, x] := tile;
      }
    }
  }
}
