/**
 * The computer player's economy of ai_strategies/base_strategies.py: a
 * resource ledger, the search for a free building site around the Town
 * Center, and the purchase of a farm.
 */
module Economy {
  import opened Wrappers
  import opened Grid

  /** Every resource name the game uses. */
  const AllResources: set<Resource> := {Wood, Gold, Food}

  /** The ledger a new computer player starts with. */
  const StartingLedger: map<Resource, int> := map[Wood := 200, Gold := 100, Food := 50]

  /** The population cap a new computer player starts with. */
  const StartingPopulationMax: int := 5

  /**
   * What `build` charges for a farm.  It is not `CostOf(Farm)`: the source
   * keeps a recipe of its own here.
   */
  const FarmRecipe: map<Resource, int> := map[Wood := 50, Gold := 30]

  /** The site search looks at most this many tiles away from the Town Center on each axis. */
  const SearchRadius: int := 3

  /** Tiles per column of the search square. */
  const ScanSide: int := 2 * SearchRadius + 1

  /** Tiles in the search square. */
  const ScanLength: int := ScanSide * ScanSide

  /** A map keyed by resources never names anything outside `AllResources`. */
  lemma KeysAreResources<V>(m: map<Resource, V>)
    ensures m.Keys <= AllResources
  {
    forall r | r in m
      ensures r in AllResources
    {
      match r
      case Wood =>
      case Gold =>
      case Food =>
    }
  }

  /** `can_afford`: the ledger covers every resource the cost names. */
  predicate CanAfford(ledger: map<Resource, int>, cost: map<Resource, int>)
    requires cost.Keys <= ledger.Keys
  {
    forall r :: r in cost ==> ledger[r] >= cost[r]
  }

  /**
   * The ledger after `pay_resources(cost)`: when affordable, every resource
   * the cost names goes down by its price and nothing else moves; otherwise
   * nothing moves.  A ledger with no negative entry keeps none.
   */
  function Paid(ledger: map<Resource, int>, cost: map<Resource, int>): (after: map<Resource, int>)
    requires cost.Keys <= ledger.Keys
    ensures after.Keys == ledger.Keys
    ensures !CanAfford(ledger, cost) ==> after == ledger
    ensures CanAfford(ledger, cost) ==> forall r :: r in cost ==> after[r] == ledger[r] - cost[r]
    ensures CanAfford(ledger, cost) ==> forall r :: r in ledger && r !in cost ==> after[r] == ledger[r]
    ensures (forall r :: r in ledger ==> ledger[r] >= 0) ==> forall r :: r in after ==> after[r] >= 0
  {
    if CanAfford(ledger, cost) then
      map r | r in ledger :: if r in cost then ledger[r] - cost[r] else ledger[r]
    else
      ledger
  }

  /**
   * The ledger after `update_resources(r, amount)`: the entry for `r` grows
   * by `amount` when the ledger has one; a resource the ledger lacks is
   * ignored.
   */
  function Credited(ledger: map<Resource, int>, r: Resource, amount: int): (after: map<Resource, int>)
    ensures after.Keys == ledger.Keys
    ensures r in ledger ==> after[r] == ledger[r] + amount
    ensures forall s :: s in ledger && s != r ==> after[s] == ledger[s]
  {
    if r in ledger then ledger[r := ledger[r] + amount] else ledger
  }

  /**
   * Paying back exactly what was credited restores the ledger: a credit of
   * `amount` of `r` is always affordable as a price afterwards.
   */
  lemma PayUndoesCredit(ledger: map<Resource, int>, r: Resource, amount: int)
    requires r in ledger && ledger[r] >= 0
    ensures CanAfford(Credited(ledger, r, amount), map[r := amount])
    ensures Paid(Credited(ledger, r, amount), map[r := amount]) == ledger
  {
    var after := Paid(Credited(ledger, r, amount), map[r := amount]);
    assert after.Keys == ledger.Keys;
    forall s | s in ledger
      ensures after[s] == ledger[s]
    {
    }
  }

  /** An affordable purchase takes exactly its price: crediting it back restores the ledger. */
  lemma CreditUndoesPay(ledger: map<Resource, int>, r: Resource, price: int)
    requires r in ledger && ledger[r] >= price
    ensures Credited(Paid(ledger, map[r := price]), r, price) == ledger
  {
    assert CanAfford(ledger, map[r := price]);
    var after := Credited(Paid(ledger, map[r := price]), r, price);
    forall s | s in ledger
      ensures after[s] == ledger[s]
    {
    }
  }

  /**
   * The `k`-th tile `find_valid_build_location` looks at around `center`:
   * the offset `dx` is the outer loop and `dy` the inner one, each running
   * from -3 to 3.
   */
  function ScanCell(center: Cell, k: int): (c: Cell)
    ensures 0 <= k < ScanLength ==> -SearchRadius <= c.0 - center.0 <= SearchRadius && -SearchRadius <= c.1 - center.1 <= SearchRadius
  {
    (center.0 + k / ScanSide - SearchRadius, center.1 + k % ScanSide - SearchRadius)
  }

  /** The `k`-th tile of the scan is free for a building. */
  predicate FreeAt(m: Map, center: Cell, k: int)
    reads m.grid
    requires m.Valid()
  {
    m.IsEmpty(ScanCell(center, k).0, ScanCell(center, k).1)
  }

  /** The tile at offset `(dx, dy)` from `center` is free for a building. */
  predicate FreeOffset(m: Map, center: Cell, dx: int, dy: int)
    reads m.grid
    requires m.Valid()
  {
    m.IsEmpty(center.0 + dx, center.1 + dy)
  }

  /**
   * The position in the scan, from `k` on, of the first free tile, or
   * `ScanLength` when none is free.
   */
  function FirstFreeIndex(m: Map, center: Cell, k: nat): (j: int)
    reads m.grid
    requires m.Valid()
    requires k <= ScanLength
    decreases ScanLength - k
    ensures k <= j <= ScanLength
    ensures j < ScanLength ==> FreeAt(m, center, j)
    ensures forall i :: k <= i < j ==> !FreeAt(m, center, i)
  {
    if k == ScanLength then ScanLength
    else if FreeAt(m, center, k) then k
    else FirstFreeIndex(m, center, k + 1)
  }

  /** What `find_valid_build_location` returns for a Town Center at `center`. */
  function FirstFreeSite(m: Map, center: Cell): Option<Cell>
    reads m.grid
    requires m.Valid()
  {
    var j := FirstFreeIndex(m, center, 0);
    if j < ScanLength then Some(ScanCell(center, j)) else None
  }

  /** Offset `(dx, dy)` is scanned at position `(dx + 3) * 7 + (dy + 3)`. */
  lemma ScanPosition(center: Cell, dx: int, dy: int)
    requires -SearchRadius <= dx <= SearchRadius && -SearchRadius <= dy <= SearchRadius
    ensures 0 <= (dx + SearchRadius) * ScanSide + dy + SearchRadius < ScanLength
    ensures ScanCell(center, (dx + SearchRadius) * ScanSide + dy + SearchRadius) == (center.0 + dx, center.1 + dy)
  {
  }

  /**
   * A site found is on the map, free, and at most 3 tiles from the Town
   * Center on each axis; no site is found exactly when every tile of that
   * square is taken or off the map.
   */
  lemma FirstFreeSiteMeaning(m: Map, center: Cell)
    requires m.Valid()
    ensures FirstFreeSite(m, center).Some? ==>
      var p := FirstFreeSite(m, center).value;
      m.IsEmpty(p.0, p.1) && m.InBounds(p) && m.At(p).resource == None && m.At(p).building == null
      && -SearchRadius <= p.0 - center.0 <= SearchRadius && -SearchRadius <= p.1 - center.1 <= SearchRadius
    ensures FirstFreeSite(m, center).None? <==>
      forall dx, dy :: -SearchRadius <= dx <= SearchRadius && -SearchRadius <= dy <= SearchRadius ==> !FreeOffset(m, center, dx, dy)
  {
    var j := FirstFreeIndex(m, center, 0);
    if j == ScanLength {
      forall dx, dy | -SearchRadius <= dx <= SearchRadius && -SearchRadius <= dy <= SearchRadius
        ensures !FreeOffset(m, center, dx, dy)
      {
        ScanPosition(center, dx, dy);
        assert !FreeAt(m, center, (dx + SearchRadius) * ScanSide + dy + SearchRadius);
      }
    } else {
      var c := ScanCell(center, j);
      assert FreeOffset(m, center, c.0 - center.0, c.1 - center.1);
    }
  }

  /**
   * `FirstFreeSite` is the first free tile in scan order: every tile the scan
   * looks at before it is taken or off the map.
   */
  lemma FirstFreeSiteIsFirst(m: Map, center: Cell, k: int)
    requires m.Valid()
    requires FirstFreeSite(m, center).Some?
    requires 0 <= k < ScanLength && ScanCell(center, k) == FirstFreeSite(m, center).value
    ensures forall i :: 0 <= i < k ==> !FreeAt(m, center, i)
  {
    var j := FirstFreeIndex(m, center, 0);
    if j != k {
      ScanCellInjective(center, j, k);
    }
  }

  /** Different scan positions name different tiles. */
  lemma ScanCellInjective(center: Cell, i: int, j: int)
    requires 0 <= i < ScanLength && 0 <= j < ScanLength && i != j
    ensures ScanCell(center, i) != ScanCell(center, j)
  {
  }

  /** model.py's `AI`: the computer player's ledger, population and buildings. */
  class AI {
    var resources: map<Resource, int>
    var population: int
    const populationMax: int
    var victoire: bool
    /** The player's buildings, the Town Center first. */
    var buildings: seq<Building>
    const townCenter: Building

    /** The ledger names every resource and the Town Center heads the building list. */
    ghost predicate Valid()
      reads this
    {
      resources.Keys == AllResources && |buildings| > 0 && buildings[0] == townCenter
    }

    /** `AI(buildings, units)`: the source keeps the unit list; only its length is kept here. */
    constructor (buildings: seq<Building>, unitCount: nat)
      requires |buildings| > 0
      ensures resources == StartingLedger
      ensures population == unitCount && populationMax == StartingPopulationMax
      ensures !victoire
      ensures this.buildings == buildings && townCenter == buildings[0]
      ensures Valid()
    {
      resources := StartingLedger;
      population := unitCount;
      populationMax := StartingPopulationMax;
      victoire := false;
      this.buildings := buildings;
      townCenter := buildings[0];
    }

    /** `update_resources`. */
    method UpdateResources(r: Resource, amount: int)
      modifies this`resources
      ensures resources == Credited(old(resources), r, amount)
    {
      if r in resources {
        resources := resources[r := resources[r] + amount];
      }
    }

    /** `pay_resources`: deduct each price in turn, but only when all are covered. */
    method PayResources(cost: map<Resource, int>)
      requires cost.Keys <= resources.Keys
      modifies this`resources
      ensures resources == Paid(old(resources), cost)
    {
      if CanAfford(resources, cost) {
        var todo := cost.Keys;
        while todo != {}
          invariant todo <= cost.Keys
          invariant resources.Keys == old(resources).Keys
          invariant forall r :: r in resources ==>
            resources[r] == old(resources)[r] - (if r in cost && r !in todo then cost[r] else 0)
          decreases |todo|
        {
          var r :| r in todo;
          resources := resources[r := resources[r] - cost[r]];
          todo := todo - {r};
        }
      }
    }

    /** `update_population`: only the population moves. */
    method UpdatePopulation(change: int)
      modifies this`population
      ensures population == old(population) + change
    {
      population := population + change;
    }

    /** `set_victoire`. */
    method SetVictoire(status: bool)
      modifies this`victoire
      ensures victoire == status
    {
      victoire := status;
    }

    /**
     * `find_valid_build_location`: the first free tile scanning `dx` then `dy`
     * over -3..3 around the Town Center, or nothing.
     */
    method FindValidBuildLocation(m: Map) returns (site: Option<Cell>)
      requires m.Valid()
      ensures site == FirstFreeSite(m, (townCenter.x, townCenter.y))
    {
      var center := (townCenter.x, townCenter.y);
      for dx := -SearchRadius to SearchRadius + 1
        invariant forall i :: 0 <= i < (dx + SearchRadius) * ScanSide ==> !FreeAt(m, center, i)
      {
        for dy := -SearchRadius to SearchRadius + 1
          invariant forall i :: 0 <= i < (dx + SearchRadius) * ScanSide + dy + SearchRadius ==> !FreeAt(m, center, i)
        {
          var x, y := center.0 + dx, center.1 + dy;
          ScanPosition(center, dx, dy);
          var k := (dx + SearchRadius) * ScanSide + dy + SearchRadius;
          if m.IsEmpty(x, y) {
            assert FreeAt(m, center, k);
            var j := FirstFreeIndex(m, center, 0);
            assert j == k;
            return Some((x, y));
          }
          assert !FreeAt(m, center, k);
        }
      }
      return None;
    }

    /**
     * `build`: when the ledger covers the farm recipe and a site is free, a
     * new farm owned by the default player goes on that site, joins the
     * building list and is paid for; otherwise nothing changes.
     */
    method Build(m: Map)
      requires m.Valid() && Valid()
      modifies this, m.grid
      ensures Valid()
      ensures population == old(population) && victoire == old(victoire)
      ensures forall r, c :: 0 <= r < m.height && 0 <= c < m.width ==>
        m.grid[r, c].building == old(m.grid[r, c].building) || fresh(m.grid[r, c].building)
      ensures
        var site := old(FirstFreeSite(m, (townCenter.x, townCenter.y)));
        if CanAfford(old(resources), FarmRecipe) && site.Some? then
          |buildings| == |old(buildings)| + 1 && buildings[..|old(buildings)|] == old(buildings)
          && var b := buildings[|old(buildings)|];
          fresh(b) && b.kind == Farm && (b.x, b.y) == site.value && b.owner == DefaultPlayer
          && b.foodCapacity == FarmFood && !b.occupied
          && resources == Paid(old(resources), FarmRecipe)
          && m.grid[site.value.1, site.value.0] == old(m.grid[site.value.1, site.value.0]).(building := b, resource := Some(Food))
          && forall r, c :: 0 <= r < m.height && 0 <= c < m.width && (c, r) != site.value ==> m.grid[r, c] == old(m.grid[r, c])
        else
          resources == old(resources) && buildings == old(buildings)
          && forall r, c :: 0 <= r < m.height && 0 <= c < m.width ==> m.grid[r, c] == old(m.grid[r, c])
    {
      KeysAreResources(FarmRecipe);
      var cost := FarmRecipe;
      if CanAfford(resources, cost) {
        var site := FindValidBuildLocation(m);
        if site.Some? {
          var (x, y) := site.value;
          FirstFreeSiteMeaning(m, (townCenter.x, townCenter.y));
          var b := new Building(Farm, x, y, None);
          m.PlaceBuilding(b, x, y);
          buildings := buildings + [b];
          PayResources(cost);
        }
      }
    }
  }
}
