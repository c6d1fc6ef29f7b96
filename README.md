# Age of Empaires P2P: the game core in Dafny

This project is a Dafny model of the game core of a small real-time strategy
game written in Python, with a C bridge for peer-to-peer play. It covers:

- **the map** (`Grid`, from model.py): tiles, buildings and the growth of resource clusters;
- **the villager** (`Units`, with the search specification in `Paths`):
  - moving, harvesting Wood and Gold, and working farms on a 5-second timer;
  - depositing at the Town Center;
  - the best-first path search `find_path` with `reconstruct_path`, and the four `find_nearest_*` searches built on it;
- **the computer player's economy** (`Economy`, from ai_strategies/base_strategies.py): the ledger, the search for a free site within three tiles of the Town Center, and the purchase of a farm;
- **the development strategy** `StrategieNo1.execute` (`Strategy`): each unit either goes home to deposit or steps towards the nearest food, wood or gold, then the AI tries to build;
- **the link to the C bridge** (`Net`, from network.py):
  - `type|payload` datagrams, parsed into an inbox;
  - liveness tracked by the time of the last datagram;
  - the game-state broadcast;
- **the bridge's circular message queue** (`Fifo`, from network/fifo.c and network/fifo.h);
- **the peer-to-peer layer of controller.py** (`Controller`):
  - the event log;
  - the client that sends this side's events and keeps the opponent's;
  - command-line options;
  - the update throttle that lets the AIs act.

`GameElement`, which model.py and controller.py each define identically
(model.py:10-26 and controller.py:226-241), is one class, `Elements.GameElement`.

State the source changes in place is held in classes:

- `Map`, `Building`, `Unit`, `AI`, `NetworkClient`, `Queue`, `EventLogger` and `P2PClient`;
- the map grid is a two-dimensional array of tile values;
- the C queue keeps its fixed array of slots.

Each method is proved against a specification function of the old state. Examples:

| method | specified by |
|---|---|
| `Queue.Enqueue` | appends to `Contents()` |
| `AI.FindValidBuildLocation` | `FirstFreeSite` |
| `Unit.FindPath` | `SearchOutcome` |
| `NetworkClient.Poll` | `ParseAll` |

The lemmas beside these functions state what the source promises:

- round trips, such as `int(str(n)) == n` and reading back a sent frame;
- the search-tree invariants of the path search and its termination measure;
- the meaning of the first free site;
- which received events are kept.

## Model

| member | source | states |
|---|---|---|
| Text.Strip | network.py:32 | `strip()` leaves no whitespace at either end and never lengthens the text |
| Text.StripSlice | network.py:32 | the stripped text is a slice of the input with only whitespace removed before and after it |
| Text.StripIdempotent | network.py:32 | stripping a stripped text changes nothing |
| Text.NatToString | network.py:90 | `str(n)` of a non-negative integer is a non-empty run of digits with no leading zero |
| Text.IntToString | network.py:90 | `str(n)` is non-empty, has no surrounding whitespace, and starts with a digit exactly when `n >= 0` |
| Text.ParseInt | controller.py:180 | `int(s)` accepts an optional sign and digits inside whitespace; any other text is the `ValueError` (None); a success needs non-blank text |
| Text.NatToStringValue | network.py:90 | the digits of `str(n)` denote `n` |
| Text.ParseIntToString | controller.py:180 | `int(str(n)) == n` for every integer `n` |
| Text.IntToStringInjective | network.py:90 | different integers have different decimal texts |
| Grid.CostOf | model.py:151-156 | every cost table has exactly Wood and Gold; gold is free exactly for House and Farm |
| Grid.Building.constructor | model.py:143-166 | owner defaults to `J1`; empty resources; not occupied; a House adds 5 population, a Farm holds 300 food |
| Grid.Building.GetConstructionCost | model.py:168-170 | for each of the four building types of `costs`, the cost is that type's table entry, which asks at least 50 wood |
| Grid.Building.GatherFood | model.py:172-178 | a farm with food gives `min(amount, food)`, an exhausted one gives 0; the farm loses exactly what it gives |
| Grid.Building.Occupy | model.py:187-189 | the building is occupied afterwards |
| Grid.Building.Free | model.py:191-193 | the building is free afterwards |
| Grid.Map.constructor | model.py:51-58 | a `width` by `height` grid of empty tiles |
| Grid.Map.IsEmpty | model.py:61-70 | an empty position is on the map and has neither resource nor building; off the map nothing is empty |
| Grid.GrowingShrinks | model.py:100-101 | taking a tile out of the cluster frontier keeps the growth invariant |
| Grid.ClusterGrows | model.py:105-122 | filling a frontier tile and adding its neighbours keeps every filled tile next to an earlier one |
| Grid.Map.AddNeighbours | model.py:115-122 | the frontier gains exactly the on-map neighbours of the tile just filled |
| Grid.Map.CreateCluster | model.py:85-122 | at most `size` tiles are filled, each fillable before and distinct; the first is the origin and each later one touches an earlier one; only those tiles change, and they get the resource; a fillable origin is filled whenever `size > 0`; a cluster of fewer than `size` tiles has no fillable on-map tile around it |
| Grid.Map.FillTile | model.py:105-122 | the tile gets the resource and no other tile changes; the frontier grows by the on-map tiles around it and nothing else; every tile around the cluster stays in the frontier or unfillable |
| Grid.Map.GenerateForestClusters | model.py:72-76 | every tile is unchanged or was fillable and now holds Wood |
| Grid.Map.GenerateGoldClusters | model.py:78-83 | each cluster is asked for 3 to 10 tiles; every tile is unchanged or was fillable and now holds Gold |
| Grid.Map.PlaceBuilding | model.py:124-129 | on the map, only the target tile changes: it gets the building, and Food when the building is a Farm; off the map nothing changes |
| Grid.Map.PlaceTile | model.py:136-139 | only the target tile changes, and only when it is on the map |
| Economy.Paid | ai_strategies/base_strategies.py:93-101 | an unaffordable cost leaves the ledger alone; otherwise each priced resource drops by exactly its price and the others stay; a non-negative ledger stays non-negative |
| Economy.Credited | ai_strategies/base_strategies.py:88-90 | only the named resource changes, by the amount, and only if it is in the ledger |
| Economy.PayUndoesCredit | ai_strategies/base_strategies.py:88-101 | paying back what was credited restores the ledger |
| Economy.CreditUndoesPay | ai_strategies/base_strategies.py:88-101 | crediting back what was paid restores the ledger |
| Economy.ScanCell | ai_strategies/base_strategies.py:75-77 | every scanned position lies within 3 tiles of the Town Center on both axes |
| Economy.ScanPosition | ai_strategies/base_strategies.py:75-77 | every offset within the radius is scanned, at position `(dx+3)*7 + dy+3` of the scan order |
| Economy.ScanCellInjective | ai_strategies/base_strategies.py:75-77 | the scan visits no position twice |
| Economy.FirstFreeIndex | ai_strategies/base_strategies.py:75-80 | the scan stops at the first empty position, and none before it is empty |
| Economy.FirstFreeSiteMeaning | ai_strategies/base_strategies.py:69-84 | a site found is empty, on the map and within 3 tiles; no site is found exactly when no position in the square is empty |
| Economy.FirstFreeSiteIsFirst | ai_strategies/base_strategies.py:75-80 | no position scanned before the chosen site is empty |
| Economy.AI.constructor | ai_strategies/base_strategies.py:36-47 | ledger Wood 200, Gold 100, Food 50; population is the unit count, cap 5; no victory; the Town Center is the first building |
| Economy.AI.UpdateResources | ai_strategies/base_strategies.py:88-90 | the ledger becomes the credited ledger |
| Economy.AI.PayResources | ai_strategies/base_strategies.py:97-101 | the ledger becomes the paid ledger |
| Economy.AI.UpdatePopulation | ai_strategies/base_strategies.py:104-105 | the population changes by exactly `change` |
| Economy.AI.SetVictoire | ai_strategies/base_strategies.py:109-110 | the victory flag is the given status |
| Economy.AI.FindValidBuildLocation | ai_strategies/base_strategies.py:69-84 | the nested loops return the first free site |
| Economy.AI.Build | ai_strategies/base_strategies.py:51-63 | when the 50 wood and 30 gold can be paid and a site is free, a new farm owned by `J1` is placed there and appended, and the recipe is paid; otherwise nothing changes |
| Elements.Updated | model.py:24 | `dict.update`: the keys of both; changed keys take the new value, the rest keep theirs |
| Elements.UpdateIdempotent | model.py:24 | applying the same changes twice is applying them once |
| Elements.GameElement.constructor | model.py:13-17 | the network owner starts as the owner; the state is empty |
| Elements.GameElement.Modify | model.py:22-26 | the change succeeds exactly when the player controls the element; only then is the state updated |
| Paths.DirOf | model.py:418-427 | a tile is one of the 8 moves away exactly when it is adjacent, and that move reaches it |
| Paths.NeighbourDir | model.py:418-427 | each of the 8 moves reaches an adjacent tile |
| Paths.Manhattan | model.py:409-410 | the heuristic is non-negative and zero exactly between equal tiles |
| Paths.TreeDescends | model.py:478-486 | in the search tree every `came_from` link points to a strictly cheaper tile |
| Paths.ChainShape | model.py:491-498 | following `came_from` back from a reached tile gives a path that is empty for the start and otherwise begins next to the start, steps between adjacent on-map tiles, passes no goal before its end and ends at the tile |
| Paths.ChainCosts | model.py:491-498 | the tiles of that chain have rising costs, so it has no repeats |
| Paths.Reversed | model.py:497 | `reverse()` keeps the length and mirrors the positions |
| Paths.ReversedSnoc | model.py:495-497 | reversing after an append puts the new element first |
| Paths.ClosedReachesAll | model.py:472-486 | a set of tiles that holds one map tile and the neighbours of each of its tiles holds every map tile |
| Paths.RelaxLowersPotential | model.py:478-486 | lowering a tile's cost lowers the search's termination measure by at least one |
| Paths.RelaxRoot | model.py:478-486 | relaxing a neighbour keeps the start at cost 0 with no `came_from` link, and gives every other reached tile one |
| Paths.RelaxCosts | model.py:478-486 | relaxing keeps every reached tile on the map, at a cost between 0 and the number of tiles reached |
| Paths.RelaxLinks | model.py:478-486 | relaxing from a non-goal tile keeps every link pointing to a reached, adjacent, cheaper, on-map tile that is not a goal |
| Units.Min | model.py:246 | `min(a, b)` is at most both and equals one of them |
| Units.MinIndex | model.py:430 | `heappop` takes an entry that no other entry precedes in `(priority, x, y)` order |
| Units.RelaxedTree | model.py:472-486 | relaxing all 8 neighbours of a non-goal tile keeps the search-tree invariant |
| Units.RelaxedKeys | model.py:479-483 | after relaxing, the reached tiles are the old ones plus the neighbours it improved |
| Units.PushedEntries | model.py:485 | the pushes keep the old open list as a prefix and queue every improved neighbour |
| Units.PushedCount | model.py:485 | one entry is pushed per improved neighbour |
| Units.RelaxedPotential | model.py:472-486 | the termination measure plus the open list's length does not grow over one expansion |
| Units.Expand | model.py:472-486 | the loop over the 8 moves computes the relaxed costs, the new links and the pushed entries |
| Units.TakeOut | model.py:430 | popping removes exactly the chosen entry; every other queued tile stays queued |
| Units.SearchStep | model.py:429-486 | every reached tile remains either queued or already expanded |
| Units.ExpandedCurrent | model.py:472-486 | once expanded, a tile's improvable neighbours are all reached |
| Units.FoundOutcome | model.py:433-469 | stopping at a goal tile returns what `find_path` promises |
| Units.SearchExhausted | model.py:429-489 | an empty open list means no tile of the map is a goal, so None is the right answer |
| Units.Unit.constructor | model.py:205-227 | owner defaults to `J1`; the unit carries nothing, is not heading home and works no farm |
| Units.Unit.Move | model.py:229-231 | the unit stands on the new position |
| Units.Unit.GatherResource | model.py:236-266 | on a resource tile the unit takes `min(20, capacity - load)`, records the resource's element id, heads home when full, and the tile loses its resource; elsewhere nothing changes |
| Units.Unit.GatherFoodFromFarm | model.py:268-314 | no farm: nothing; exhausted farm: dropped. Otherwise the farm is occupied, the timer starts at now + 5 s, and when due the unit takes food (as much as the farm has) and, when full, heads home, frees and drops the farm |
| Units.Unit.DepositResource | model.py:339-351 | at a Town Center with a load, the load is credited and the unit emptied; otherwise nothing changes |
| Units.Unit.ReconstructPath | model.py:491-498 | the path is the `came_from` chain from the start to the tile |
| Units.Unit.FindPath | model.py:406-489 | None exactly when no map tile is a goal; empty exactly when the start is one; otherwise a route of distinct adjacent tiles ending at the first goal reached |
| Units.Unit.FindNearestFarm | model.py:353-371 | a path returned leads to a free farm that still has food; no farm on the map, or standing on one, gives None |
| Units.Unit.FindNearestGold | model.py:373-380 | the gold search's outcome |
| Units.Unit.FindNearestWood | model.py:382-389 | the wood search's outcome |
| Units.Unit.FindNearestTownCenter | model.py:391-404 | None on the Town Center; otherwise the search's outcome, which is a route ending on it whenever it is on the map |
| Strategy.ChooseNearest | ai_strategies/strategie_No1_dev_ai.py:25-35 | no choice exactly when no path is usable; the choice is a shortest usable path, ties going to Food, then Wood, then Gold |
| Strategy.StepHome | ai_strategies/strategie_No1_dev_ai.py:9-16 | `route` is the search for `buildings[0]`, none when the unit stands on it; the unit steps onto the route's first tile, or stays put without a route; landing on `buildings[0]` it deposits there (crediting its load when that is a Town Center) and stops heading home; otherwise nothing else changes; its farm and harvest timer are kept |
| Strategy.Survey | ai_strategies/strategie_No1_dev_ai.py:21-32 | the wood and gold searches are `find_path`'s outcome; a farm route ends at a free farm with food, and there is none on a farm or on a map without one; the choice is `ChooseNearest` of the three and a route to its resource |
| Strategy.Advance | ai_strategies/strategie_No1_dev_ai.py:36-48 | the unit steps onto the route's first tile. Towards wood or gold it harvests `min(20, room)` there, carries the tile's element id, heads home when full, and the tile loses its resource. A step onto the farm at the route's end binds the unit to it and works it as `gather_food_from_farm` does; a step short of it changes nothing else; every building keeps its tile, and every building other than the farm worked keeps its occupancy and food |
| Strategy.StepOut | ai_strategies/strategie_No1_dev_ai.py:19-48 | the three searches are made on the old map and `plan` is `ChooseNearest` of them, a route to its resource; without a plan the unit, the map and every building's occupancy and food stay as they were; otherwise the unit steps onto the plan's first tile and acts as Strategy.Advance states, so every building other than the farm it works keeps its occupancy and food |
| Strategy.StepUnit | ai_strategies/strategie_No1_dev_ai.py:7-48 | a unit heading home acts as Strategy.StepHome states and leaves the map and every building's occupancy and food alone; any other acts as Strategy.StepOut states, leaves the ledger alone and changes no building but the farm it works; either way it ends on its tile or an adjacent one |
| Strategy.StepAll | ai_strategies/strategie_No1_dev_ai.py:7-48 | each unit, stepped in list order, ends on its tile or an adjacent one; the ledger keeps its resources; no building on the map moves |
| Strategy.Execute | ai_strategies/strategie_No1_dev_ai.py:6-52 | given the AI's own building list, every unit stays or steps to an adjacent tile; the population is unchanged; at most one building is added, a farm |
| Fifo.RingWindow | network/fifo.c:46-53 | the contents are the `count` slots from `front`, wrapping around |
| Fifo.WindowGrow | network/fifo.c:24-26 | writing the slot after the last one appends to the contents |
| Fifo.WindowShrink | network/fifo.c:36-37 | advancing `front` drops the first message |
| Fifo.WindowNext | network/fifo.c:48-53 | the window one longer adds the next slot |
| Fifo.Queue.Init | network/fifo.c:6-10 | a new queue with `front` 0, `rear` -1, no messages |
| Fifo.Queue.InitQueue | network/fifo.c:6-10 | reset to `front` 0, `rear` -1, no messages; empty and not full |
| Fifo.Queue.IsFull | network/fifo.c:12-14 | full exactly when it holds 10 messages |
| Fifo.Queue.IsEmpty | network/fifo.c:16-18 | empty exactly when it holds no message |
| Fifo.Queue.Enqueue | network/fifo.c:20-29 | a full queue is unchanged; otherwise the message is appended at the advanced `rear` |
| Fifo.Queue.Dequeue | network/fifo.c:31-39 | an empty queue is unchanged; otherwise the oldest message is dropped |
| Fifo.Queue.PrintQueue | network/fifo.c:41-55 | it lists the messages in order, oldest first |
| Net.FrameLayout | network.py:59 | a frame is the bare type when the payload is empty, else type, bar, payload |
| Net.FirstBar | network.py:35-36 | finds the first bar, or reports that there is none |
| Net.Split | network.py:35-39 | splitting at the first bar gives a bar-free type and the rest; with no bar, the whole text and an empty payload |
| Net.SplitUnique | network.py:36 | a text splits at its first bar in only one way |
| Net.ParseAll | network.py:30-39 | each datagram yields one message, in order |
| Net.ParseFrame | network.py:32-39 | a bar-free type with an unpadded frame reads back as the type and payload sent |
| Net.ParseFrameType | network.py:32-39 | a frame with a payload always reads back its type, and its payload less any trailing whitespace |
| Net.ParseFramePrefix | network.py:32-39 | the payload read back starts with any prefix of the sent payload that ends in a non-space |
| Net.FrameParse | network.py:32-39 | re-framing a parsed message gives back the stripped datagram, or that datagram less a final bar |
| Net.NetworkClient.constructor | network.py:10-16 | not connected, empty inbox, last message time now |
| Net.NetworkClient.Receive | network.py:31-44 | a datagram is parsed into the inbox, sets the last message time and marks the bridge connected |
| Net.NetworkClient.Poll | network.py:27-55 | the inbox gains the parsed datagrams in order; with datagrams the bridge is connected; without them it stays connected only within 2 s of the last one |
| Net.NetworkClient.Send | network.py:57-63 | exactly the framed datagram is sent |
| Net.NetworkClient.ConsumeMessages | network.py:70-73 | returns the inbox and empties it |
| Net.Framed | network.py:89-91 | one frame of the given type per payload, in order |
| Net.UnitPayloads | network.py:89-90 | one payload per unit, in order |
| Net.BuildingPayloads | network.py:101-102 | one payload per building, in order |
| Net.ResourceFrames | network.py:95-97 | one resources frame when there is a non-empty ledger, none otherwise |
| Net.UnitPayloadPrefix | network.py:90 | each unit payload starts with the text `UNIT_UPDATE` and a bar |
| Net.PrefixedFrameRead | network.py:90-91 | such a frame reads back with type `UNIT_UPDATE` and a payload that again starts with `UNIT_UPDATE` and a bar |
| Net.UnitFramesRead | network.py:89-91 | every unit frame reads back as a unit update |
| Net.BuildingFramesRead | network.py:101-103 | every building frame reads back with type `BUILDING_STATE` |
| Net.StateFramesRead | network.py:84-107 | the broadcast is units, then at most one resources frame, then buildings, each read back with its type |
| Net.SendEach | network.py:89-91 | the loop sends one frame per payload, in order |
| Net.SendGameStateToC | network.py:84-107 | the outbox gains exactly the broadcast frames; nothing else in the client changes |
| Controller.EventLogger.constructor | controller.py:34-36 | nothing logged yet |
| Controller.EventLogger.LogEvent | controller.py:38-48 | the returned event carries this side, and it is appended to the log |
| Controller.EventLogger.LogUnitMovement | controller.py:50-51 | logs `UNIT_MOVE` with unit id and position |
| Controller.EventLogger.LogBuildingConstruction | controller.py:53-54 | logs `BUILDING_CONSTRUCT` with type and position |
| Controller.EventLogger.LogResourceGathering | controller.py:56-57 | logs `RESOURCE_GATHER` with resource and amount |
| Controller.EventLogger.LogUnitCreation | controller.py:59-60 | logs `UNIT_CREATE` with type and position |
| Controller.EventLogger.LogAttack | controller.py:62-63 | logs `ATTACK` with attacker and target |
| Controller.EventLogger.GetEvents | controller.py:65-67 | returns the log, every event of this side |
| Controller.EventLogger.ClearEvents | controller.py:69-71 | the log is empty |
| Controller.Accept | controller.py:102-113 | only the opponent's records are kept, at most one per message |
| Controller.AcceptAppend | controller.py:102-113 | reading two batches is reading the first, then the second unless the first raised |
| Controller.AcceptStops | controller.py:102-113 | after a message raises, later messages change nothing |
| Controller.AcceptRaises | controller.py:105-113 | polling raises exactly when some event message decodes to JSON that is not an object |
| Controller.AcceptKeeps | controller.py:102-113 | with no raise, every decodable opponent event is kept; every kept record came from such a message |
| Controller.EventTypeShape | controller.py:104 | the event types have no bar and do not start with whitespace |
| Controller.FrameRead | controller.py:122-125 | an event's frame reads back as its type and its JSON |
| Controller.EventDelivered | controller.py:102-125 | an opponent's event sent by `send_event` is received as its own record |
| Controller.EchoDropped | controller.py:109-111 | this side's own event coming back is not kept |
| Controller.P2PClient.constructor | controller.py:76-89 | a fresh empty log and an empty inbox |
| Controller.P2PClient.Poll | controller.py:91-113 | the bridge is polled and drained; the accepted records join the inbox; with no bridge nothing happens |
| Controller.P2PClient.Absorb | controller.py:102-113 | the message loop keeps the accepted records and reports the raise |
| Controller.P2PClient.SendEvent | controller.py:115-127 | one frame is sent when the bridge is connected, none otherwise |
| Controller.P2PClient.ConsumeEvents | controller.py:129-133 | returns the inbox, all of it from the opponent, and empties it |
| Controller.P2PClient.LogAndSend | controller.py:135-139 | the event is logged, then sent as `send_event` sends it |
| Controller.ParseP2PArguments | controller.py:167-189 | the loop as written |
| Controller.ParseP2PArgumentsFixed | controller.py:167-189 | the loop with the intended guard and the host assignment |
| Controller.AgreesBeforeLast | controller.py:171-189 | before the last argument, the loop as written agrees with the intended reading except for the host |
| Controller.AsWrittenOutcome | controller.py:171-189 | as written, it raises exactly when the last argument is a value option; otherwise it is the intended reading with the host unchanged |
| Controller.FixedP2P | controller.py:172-173 | peer-to-peer play is on exactly when it was on or `--p2p` is given |
| Controller.FixedSide | controller.py:174-177 | a side that is set is `J1` or `J2`, and it follows a `--player` |
| Controller.FixedPorts | controller.py:178-187 | a port that is set is the integer read after its option |
| Controller.FixedHost | controller.py:188-189 | a host that is set is the argument after `--opponent-host` |
| Controller.FixedHostLast | controller.py:188-189 | a host given by the last two arguments is the one used |
| Controller.NextUpdateTime | controller.py:439-447 | the returned time is the current time or the previous update time |
| Controller.UpdateGame | controller.py:420-447 | not due: nothing changes, the buildings on the map included. Due: each side's units stay or step to an adjacent tile, and each population is unchanged |
| Controller.ThrottleSpacing | controller.py:440-447 | after an update, a call within `delay` leaves the update time alone |

## Left out

- Sockets, printing and the console are not modelled:
  - `NetworkClient.Poll` is handed the datagrams waiting on the socket, already decoded to text;
  - `Send` records its datagram in an `outbox`;
  - `Queue.PrintQueue` returns the messages it would print, without the `[i] ->` decoration;
  - `recvfrom`'s 4096-byte limit and text decoding are not modelled.
- `send_ping`, `send_simple_message_to_c` and `load_network_client` (network.py:65-68, 76-82, 110-119) are not modelled. They only wrap `send` and the constructor.
- The `to_network_message` and `send_to_network` formatters of Map, Tile, Building and Unit are not modelled. No core operation reads them.
- Clocks become parameters:
  - `time.time()` is an integer millisecond `now`, so the 5 s farm timer is 5000 and the 2.0 s liveness limit is 2000;
  - `datetime.now().isoformat()` is a `timestamp` text.
- The map's random source is a parameter:
  - the cluster origins and the gold cluster sizes are parameters;
  - `set.pop()` is an arbitrary choice from the frontier;
  - `shuffle` only changes the order in which neighbours join a set, so the directions are taken in their listed order.
- `Tile.delete_ressource_network` clears the resource. Its `UPDATE_MAP` message to the bridge is not modelled.
- A tile's lazily attached `GameElement` is kept as its id only (`elementId`).
  - Inside `gather_resource` the element's `network_owner` is set to the harvesting AI just before `modify`, so the modification always succeeds.
  - The model harvests unconditionally.
  - The element's `state` dictionary and owner juggling are left out.
- `Units.Unit.GatherFoodFromFarm` does not model the farm's `network_owner` attribute, which is written and never read.
- Tile.unit is a boolean `hasUnit`; nothing in the core sets it.
- The `heapq` open list is a sequence. A pop removes an entry that is least in the `(priority, x, y)` order Python compares tuples by.
- The class counter `_NEXT_NETWORK_ID` is not modelled; the network id is given to the constructor.
- `AI.units` is kept only as its length, the starting population.
- JSON is not modelled:
  - `json.dumps` and `json.loads` are the parameters `dumps` and `loads`;
  - a JSON value is an integer, a string, an object or "other";
  - the `event.get('type', 'EVENT')` fallback is not modelled, because every event sent is built by `log_event` and has a type;
  - exceptions from `json.dumps` are not modelled.
- In `poll`, a decodable event payload that is not a JSON object raises `AttributeError` out of the loop and loses the remaining messages. The model reports this as `raised`.
- `int()` is modelled on ASCII digits with an optional sign. Underscores and non-ASCII digits are not accepted.
- `str.strip()` is modelled on ASCII whitespace and the separators `\x1c`–`\x1f` only.
- controller.py's second `NetworkClient` (controller.py:1161-1223) is the same code as network.py's and is not modelled twice.
- controller.py's own `send_game_state_to_c` (controller.py:449-470) calls a `send_to_c` method that no client defines, so it sends nothing. It is not modelled.
- The unused `player_side` argument of `send_game_state_to_c` is dropped.
- `update_game`'s `strategy` argument is always `StrategieNo1` here.
- Strategy.Execute and Strategy.StepAll require that every unit's `ai` is the AI passed in and that no unit is listed twice. The game creates units that way, and the frame proof needs it.
- Controller.UpdateGame requires the same of both sides, with distinct AIs.
- Strategy.Execute and Controller.UpdateGame take each side's building list as a value that equals its AI's `buildings` on entry. In the game it is the same list object, so the farm `build` appends shows up in the list the next `update_game` receives. The model reproduces that only when the caller passes `ai.buildings` again. Within one call only `buildings[0]` is read, and only before the build.
- Units.Unit.GatherResource requires the unit to stand on the map. Python's negative indexing of a position off the map is not modelled; units only move along on-map paths.
- Fifo.Queue.Enqueue requires the message to fit its 64-byte slot with its terminating NUL. `strcpy` of a longer message overflows the slot, which is undefined behaviour in C.
- Units.Unit.FindPath does not state that the route is a shortest one. The source's priority adds the distance from the unit's own tile rather than from the goal, so the search does not promise optimality.
- Strategy.Execute states a summary: movement, population, and at most one new building, a farm. The effect on each unit is stated by Strategy.StepUnit, and the ledger after the build attempt by Economy.AI.Build; they are not restated here for the whole list.
- Strategy.StepAll states the same movement summary for the whole list of units. Each unit's full effect is stated by Strategy.StepUnit, one call at a time.
- Controller.UpdateGame states the same summary as Strategy.Execute for each side.
- Grid.Map.IsEmpty states in its contract only that an empty position is on the map with neither resource nor building. The condition on the unit flag is in its body alone.
- Units.Unit.FindNearestFarm does not state that a path is returned whenever the first farm the search reaches is free and has food.
- Grid.Map.GenerateForestClusters and Grid.Map.GenerateGoldClusters state the effect on each tile. The shape and size of each cluster are stated by Grid.Map.CreateCluster.
- Grid.Building.GetConstructionCost: building types are the four keys of `costs`, so the `{"Wood": 0, "Gold": 0}` default for any other type (model.py:170) is not modelled.

## Findings

| source | as written | input that shows it | evidently intended | confidence | as-written member | corrected member |
|---|---|---|---|---|---|---|
| controller.py:174-189 | The guard `i + 1 < len(sys.argv)` tests the option's own position in `sys.argv`, so it always holds. A value option in last position then reads `sys.argv[i + 2]` past the end and raises `IndexError`, which the `except ValueError` does not catch. | `["main.py", "--my-port"]` | A value option with nothing after it is ignored. | not executed | Controller.AsWrittenOutcome | Controller.ParseP2PArgumentsFixed |
| controller.py:169, 188-189 | `P2P_OPPONENT_HOST` is missing from the `global` statement, so `--opponent-host h` binds a local name and the setting keeps `127.0.0.1`. | `["main.py", "--opponent-host", "h"]` | The opponent host becomes `h`. | not executed | Controller.AsWrittenOutcome | Controller.FixedHostLast |
