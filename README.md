# SS3D core rules in Dafny

A verified model of four pieces of the SS3D game server:

- **The tile build rules** (`BuildChecker`). A map cell has one location per layer:
  Plenum, Turf, WallMountHigh, WallMountLow, FurnitureBase and FurnitureTop. `CanBuild`
  decides whether an object may be placed on a cell facing a direction. It is proved to be
  exactly the conjunction of nine separately stated rules. The one exception is an
  invalid-cast exception, raised when the Turf location is not single-slot and the engine
  casts it: for a furniture candidate once the Plenum location is single-slot, and for a
  wall-mount candidate that has passed the occupancy and plenum checks. Plenum and Turf
  candidates always get a verdict. `GetToBeClearedLocations` lists the layers to clear
  once a supporting layer is empty. It is proved to restore the missing support and to be
  stable when it is run again.
- **The vending machine** (`VendingMachines`). Dispensing is guarded by power, the product
  index and the stock, and then takes one unit from one product's stock. The model proves
  that stock is conserved and stays non-negative over any sequence of requests.
- **Role assignment** (`Roles`). A joining player gets Security while it has places, and
  Assistant otherwise. The player-to-role map only grows. Security never exceeds its
  places, whatever the events.
- **Command-line processing** (`CommandLine`). Flags are found by substring containment and
  their marker is stripped from the value. Ports are parsed as unsigned 16-bit numbers. The
  last network flag wins, and the three switches are only ever turned on.

Files: `wrappers.dfy` (Option, Result), `strings.dfy` (ordinal `Contains` and `Replace(marker, "")`),
`tiles.dfy` (directions, layers, locations), `build_checker.dfy`, `vending_machine.dfy`,
`roles.dfy`, `command_line.dfy`.

Modelling choices:

- The build rules and the cascade rule read a cell as a sequence of locations indexed by
  layer ordinal. A location is `Single(object?)` or `Directional` with one slot per cardinal
  direction.
- The `TileLayer` enumeration is not part of this model. Plenum is ordinal 0, which the
  cascade loop relies on; the other named layers are taken as 1 to 5. A cell may have more
  locations than these six, standing for further layers.
- `TileHelper`'s next and previous cardinal directions are not part of this model. They are
  defined as a quarter turn clockwise and counter-clockwise, and no proof depends on which
  turn they make.
- The neighbours' WallMountHigh and WallMountLow objects, which the engine looks up in the
  current map, are parameters of `CanBuild`.
- `GetToBeClearedLocations` returns layer ordinals. Each ordinal stands for the reference to
  that layer's location in the cell's array. The array is a parameter the method may not
  modify.
- Three details of the rules as the code states them:
  - The "no low mount on windows" rule tests the Turf object's name string, not the name of
    an existing mount.
  - The plenum test reads the definition name string for "Plenum" and the game-object name
    for "Catwalk".
  - The Turf-empty cascade lists WallMountHigh before WallMountLow.
- Player removal follows the corrected removal of the "## Findings" row. This applies to
  `RemoveFromCounters`, `HandleChange`, the class's `RemovePlayerFromCounters` and
  `HandleOnlinePlayersChanged`, and the event lemmas. As written, the engine throws where
  the corrected removal leaves a player with no role alone. Both leave the same state,
  since an exception leaves the state it reached. `AsWrittenEventsReachSameState` proves
  that the as-written event handler reaches the same state over any events, so the event
  lemmas hold of the code as written too.

## Model

| member | source | states |
|---|---|---|
| `BuildChecker.CanBuild` | Assets/Scripts/SS3D/Systems/Tile/BuildChecker.cs:21-76 | The verdict is InvalidCast exactly when the rules cast a non-single Turf location; otherwise it is Verdict(all nine rules hold): occupancy, plenum, large footprint, wall needed, no low mount on window, no wall collision, no furniture in walls, no wall on furniture, no stranded neighbour mount |
| `BuildChecker.ReplaceExistingOnlyWidens` | Assets/Scripts/SS3D/Systems/Tile/BuildChecker.cs:28-30 | A placement allowed without replacing is also allowed with replacing |
| `BuildChecker.OccupiedSlotRejected` | Assets/Scripts/SS3D/Systems/Tile/BuildChecker.cs:28-30 | Without replacing, an occupied target slot is never built on |
| `BuildChecker.PlenumRequired` | Assets/Scripts/SS3D/Systems/Tile/BuildChecker.cs:32-42 | Above the plenum nothing is built on an empty Plenum location, or on one whose object's name string lacks "Plenum" and whose name lacks "Catwalk" |
| `BuildChecker.PlenumCheckFollowsRule` | Assets/Scripts/SS3D/Systems/Tile/BuildChecker.cs:137-152 | On a single-slot Plenum location, `CanBuildOnPlenum` holds exactly when an object is placed there whose name string contains "Plenum" or whose name contains "Catwalk", which is the plenum rule |
| `BuildChecker.LargeMountFootprint` | Assets/Scripts/SS3D/Systems/Tile/BuildChecker.cs:50-52 | A large wall mount is rejected when the slot a quarter turn either side on its layer is taken |
| `BuildChecker.AllowedWallMount` | Assets/Scripts/SS3D/Systems/Tile/BuildChecker.cs:102-120 | An allowed wall mount stands on a Turf wall and faces no neighbouring wall; if low, the wall's name string has no "Window" |
| `BuildChecker.WallChecksFollowRules` | Assets/Scripts/SS3D/Systems/Tile/BuildChecker.cs:85-120 | On a single-slot Turf location: `IsWall` holds exactly when an object of generic type Wall is placed there; `CanBuildWallCollision` holds exactly when a wall mount faces no neighbouring wall; for a wall mount, `CanBuildWallAttachment` holds exactly when there is a wall, a low mount's wall has no "Window" in its name string, and there is no collision |
| `BuildChecker.HighMountIgnoresWallName` | Assets/Scripts/SS3D/Systems/Tile/BuildChecker.cs:110-113 | For a WallMountHigh candidate, renaming the Turf object does not change the verdict |
| `BuildChecker.NoFurnitureInWalls` | Assets/Scripts/SS3D/Systems/Tile/BuildChecker.cs:58-64 | FurnitureBase or FurnitureTop is never allowed while the Turf location holds a wall |
| `BuildChecker.AllowedWall` | Assets/Scripts/SS3D/Systems/Tile/BuildChecker.cs:65-72 | An allowed Turf wall has both furniture layers fully empty and no wall mount in any neighbouring cell |
| `BuildChecker.NoNeighbouringWallMount` | Assets/Scripts/SS3D/Systems/Tile/BuildChecker.cs:127-135 | True exactly when no neighbour, in any direction, has a WallMountHigh or WallMountLow object |
| `BuildChecker.WallOnBarePlenum` | Assets/Scripts/SS3D/Systems/Tile/BuildChecker.cs:65-72 | A wall may be built on a cell holding only a plenum |
| `BuildChecker.BuildingAgainstAWall` | Assets/Scripts/SS3D/Systems/Tile/BuildChecker.cs:45-73 | On a walled cell a furniture base is refused and a large high wall mount is allowed |
| `BuildChecker.GetToBeClearedLocations` | Assets/Scripts/SS3D/Systems/Tile/BuildChecker.cs:160-185 | Returns, without changing the array: every layer above the plenum in order when the plenum is empty; else [WallMountHigh, WallMountLow] when the turf is empty; else [FurnitureTop] when the furniture base is empty; else nothing |
| `BuildChecker.CascadeListsLayersAbovePlenum` | Assets/Scripts/SS3D/Systems/Tile/BuildChecker.cs:164-171 | The plenum is never listed, every listed layer exists, and the list is strictly increasing |
| `BuildChecker.CascadeRestoresSupport` | Assets/Scripts/SS3D/Systems/Tile/BuildChecker.cs:160-185 | After clearing the listed layers, an empty plenum carries nothing, and the support the first matching rule found missing holds |
| `BuildChecker.CascadeIsStable` | Assets/Scripts/SS3D/Systems/Tile/BuildChecker.cs:160-185 | Resolving again after the clearing lists the same layers, and clearing them again changes nothing |
| `BuildChecker.FurnitureTopOutlivesMissingTurf` | Assets/Scripts/SS3D/Systems/Tile/BuildChecker.cs:173-182 | First match wins: with turf and furniture base both empty, only the two wall-mount layers are listed, not FurnitureTop |
| `BuildChecker.RemovingTheWall` | Assets/Scripts/SS3D/Systems/Tile/BuildChecker.cs:173-178 | Removing the wall from a plenum-and-wall cell lists exactly WallMountHigh and WallMountLow |
| `Tiles.Ordinal` | Assets/Scripts/SS3D/Systems/Tile/BuildChecker.cs:165-167 | Plenum is the only layer with ordinal 0, and every ordinal indexes a cell |
| `Tiles.TileLocation.IsFullyEmpty` | Assets/Scripts/SS3D/Systems/Tile/BuildChecker.cs:68-69 | A location is fully empty exactly when it is empty in every direction |
| `VendingMachines.VendingMachine.DispenseProduct` | Assets/Scripts/SS3D/Systems/Furniture/VendingMachine.cs:52-89 | Without power, with an index out of range or with no stock left, nothing changes; otherwise one power use is recorded, the product's stock drops by one and that product is spawned by its name |
| `VendingMachines.DispenseChangesOnlySelected` | Assets/Scripts/SS3D/Systems/Furniture/VendingMachine.cs:54-81 | A request dispenses exactly when powered, in range and in stock; only the selected stock changes, by minus one |
| `VendingMachines.StockStaysNonNegative` | Assets/Scripts/SS3D/Systems/Furniture/VendingMachine.cs:72-81 | Stock that starts non-negative stays non-negative after any sequence of requests |
| `VendingMachines.StockIsConserved` | Assets/Scripts/SS3D/Systems/Furniture/VendingMachine.cs:80-88 | After any sequence of requests, the remaining total stock plus the number of items dispensed equals the initial total |
| `VendingMachines.TotalDecrement` | Assets/Scripts/SS3D/Systems/Furniture/VendingMachine.cs:81 | Taking one unit from one product takes one from the total stock |
| `VendingMachines.VendingMachine.CreateTargetInteractions` | Assets/Scripts/SS3D/Systems/Furniture/VendingMachine.cs:92-112 | Empty without power; otherwise one entry per product, entry i holding the product's name string, index i and its current stock |
| `Roles.CountersFollowConfiguration` | Assets/Scripts/SS3D/Systems/Roles/RoleSubSystem.cs:51-58 | One counter per configured role, in configuration order, with its role and places copied and nobody in it |
| `Roles.RoleSubSystem.GetAvailableRoles` | Assets/Scripts/SS3D/Systems/Roles/RoleSubSystem.cs:44-59 | Appends the configured counters to the existing ones; without a configuration it fails and changes nothing |
| `Roles.FreshCountersWithinPlaces` | Assets/Scripts/SS3D/Systems/Roles/RoleSubSystem.cs:51-58 | Fresh counters keep Security within its places when no role has a negative number of places |
| `Roles.AssignRole` | Assets/Scripts/SS3D/Systems/Roles/RoleSubSystem.cs:98-113 | An assignment that succeeds was for a player not yet mapped, who is mapped afterwards |
| `Roles.AssignRoleChoosesCounter` | Assets/Scripts/SS3D/Systems/Roles/RoleSubSystem.cs:100-112 | Assistant when there is no Security counter or it is full, Security otherwise; the map gains exactly that player with that counter's role, that counter gains the player, no other counter changes; a missing Assistant counter is an error |
| `Roles.AssignMappedPlayerFails` | Assets/Scripts/SS3D/Systems/Roles/RoleSubSystem.cs:105-111 | A player already in the map is refused and the map is unchanged |
| `Roles.RoleSubSystem.AssignPlayerRole` | Assets/Scripts/SS3D/Systems/Roles/RoleSubSystem.cs:98-113 | The new counters, map and error are those of AssignRole on the old state |
| `Roles.AssignKeepsSecurityWithinPlaces` | Assets/Scripts/SS3D/Systems/Roles/RoleSubSystem.cs:103-111 | Assignment never takes the Security counter past its places |
| `Roles.RemoveKeepsSecurityWithinPlaces` | Assets/Scripts/SS3D/Systems/Roles/RoleSubSystem.cs:119-131 | Removal never takes the Security counter past its places or below zero |
| `Roles.EventsKeepSecurityWithinPlaces` | Assets/Scripts/SS3D/Systems/Roles/RoleSubSystem.cs:64-79 | Over any sequence of player events, Security stays within its places |
| `Roles.EventsNeverUnmap` | Assets/Scripts/SS3D/Systems/Roles/RoleSubSystem.cs:119-131 | No event removes or changes a player's recorded role |
| `Roles.RemoveFromCounters` | Assets/Scripts/SS3D/Systems/Roles/RoleSubSystem.cs:119-131 | Corrected removal: the map is never changed; a player without a recorded role leaves everything as it is |
| `Roles.RemoveTakesPlayerOutOfTheirCounter` | Assets/Scripts/SS3D/Systems/Roles/RoleSubSystem.cs:124-129 | For a mapped player: with no counter for their recorded role the lookup throws and nothing changes; otherwise the first counter for that role loses the player's first occurrence and every other counter is unchanged |
| `Roles.RemoveRecorded` | Assets/Scripts/SS3D/Systems/Roles/RoleSubSystem.cs:124-130 | Removing a mapped player from their role's counter leaves the map as it is |
| `Roles.RoleSubSystem.RemovePlayerFromCounters` | Assets/Scripts/SS3D/Systems/Roles/RoleSubSystem.cs:119-131 | The new counters and error are those of the corrected removal on the old state, whose counter effect `RemoveTakesPlayerOutOfTheirCounter` states |
| `Roles.RemoveFromCountersAsWritten` | Assets/Scripts/SS3D/Systems/Roles/RoleSubSystem.cs:119-131 | As written: a player with no recorded role raises the no-matching-counter error and changes nothing; the map is never changed |
| `Roles.RemovalsLeaveSameState` | Assets/Scripts/SS3D/Systems/Roles/RoleSubSystem.cs:119-131 | The as-written and corrected removals leave the same state for every player |
| `Roles.AsWrittenEventsReachSameState` | Assets/Scripts/SS3D/Systems/Roles/RoleSubSystem.cs:64-79 | Over any sequence of events, the handler with the as-written removal reaches the same state as the corrected one |
| `Roles.RoleSubSystem.HandleOnlinePlayersChanged` | Assets/Scripts/SS3D/Systems/Roles/RoleSubSystem.cs:64-79 | Non-server events change nothing; Addition assigns; Removal removes from counters; any other change does nothing |
| `Roles.RemoveUnmappedPlayerThrows` | Assets/Scripts/SS3D/Systems/Roles/RoleSubSystem.cs:121-127 | As written, removing a player with no recorded role raises the no-matching-counter error |
| `Roles.RemoveUnmappedPlayerExample` | Assets/Scripts/SS3D/Systems/Roles/RoleSubSystem.cs:121-127 | On a fresh server, the first player leaving before getting a role makes the as-written removal throw, while the corrected one changes nothing |
| `Roles.RemovalsAgreeOnMappedPlayers` | Assets/Scripts/SS3D/Systems/Roles/RoleSubSystem.cs:124-130 | The as-written and corrected removals agree on every player with a recorded role |
| `Roles.FirstNamed` | Assets/Scripts/SS3D/Systems/Roles/RoleSubSystem.cs:100-101 | Finds the first counter with the given role name, or none when no counter has it |
| `Roles.FirstFor` | Assets/Scripts/SS3D/Systems/Roles/RoleSubSystem.cs:127 | Finds the first counter for exactly the given role, or none when no counter has it |
| `Roles.RoleCounter.AddPlayer` | Assets/Scripts/SS3D/Systems/Roles/RoleSubSystem.cs:105 | Adding a player raises the counter's current roles by one and keeps its role and places |
| `Roles.RoleCounter.RemovePlayer` | Assets/Scripts/SS3D/Systems/Roles/RoleSubSystem.cs:129 | Removing a player lowers current roles by one if the player holds the role, and otherwise changes nothing |
| `Strings.RemoveAllFirstOccurrence` | Assets/Scripts/SS3D/CommandLine/CommandLineArgsSubSystem.cs:82 | `Replace(marker, "")` keeps the text before the first occurrence of the marker, drops that occurrence and carries on with the text after it |
| `Strings.RemoveAllAbsent` | Assets/Scripts/SS3D/CommandLine/CommandLineArgsSubSystem.cs:87 | Stripping a marker that does not occur leaves the text unchanged |
| `Strings.RemoveAllAfterMarker` | Assets/Scripts/SS3D/CommandLine/CommandLineArgsSubSystem.cs:94 | Stripping the marker from marker + value gives the value back when the value holds no marker |
| `CommandLine.ToUInt16` | Assets/Scripts/SS3D/CommandLine/CommandLineArgsSubSystem.cs:96 | Succeeds exactly on non-empty digit strings whose value is at most 65535, and returns that value |
| `CommandLine.ToUInt16OfDecimal` | Assets/Scripts/SS3D/CommandLine/CommandLineArgsSubSystem.cs:96 | Every port number written in decimal parses back to itself |
| `CommandLine.ProcessArgEffects` | Assets/Scripts/SS3D/CommandLine/CommandLineArgsSubSystem.cs:72-118 | One argument fails exactly when it carries a port that does not parse. Otherwise each setting whose marker it contains is overwritten and every other setting is kept. Server-only beats ip, and ip beats host. On failure the earlier flags keep their effect and the later ones have none |
| `CommandLine.IpArgumentSetsClient` | Assets/Scripts/SS3D/CommandLine/CommandLineArgsSubSystem.cs:79-83 | Ip marker + address makes the network type Client and the server address that address |
| `CommandLine.PortArgumentSetsPort` | Assets/Scripts/SS3D/CommandLine/CommandLineArgsSubSystem.cs:92-97 | Port marker + a number in decimal sets the server port to that number |
| `CommandLine.BadPortFails` | Assets/Scripts/SS3D/CommandLine/CommandLineArgsSubSystem.cs:92-97 | Port marker + text that is not a number fails with a format error |
| `CommandLine.UnparsablePortStops` | Assets/Scripts/SS3D/CommandLine/CommandLineArgsSubSystem.cs:92-97 | A port that does not parse ends the argument with that parse error |
| `CommandLine.LastNetworkFlagWins` | Assets/Scripts/SS3D/CommandLine/CommandLineArgsSubSystem.cs:56-59 | When no argument fails, the network type is the one asked for by the last argument that asks for one |
| `CommandLine.SwitchesOnlyTurnOn` | Assets/Scripts/SS3D/CommandLine/CommandLineArgsSubSystem.cs:99-117 | When no argument fails, skip-intro, discord and force-launcher are on exactly when they were on before or some argument carries their marker |
| `CommandLine.FailureStopsProcessing` | Assets/Scripts/SS3D/CommandLine/CommandLineArgsSubSystem.cs:56-59 | Arguments after a failing one are never processed |
| `CommandLine.CommandLineArgsSubSystem.HasCommandLineArgs` | Assets/Scripts/SS3D/CommandLine/CommandLineArgsSubSystem.cs:62-67 | Stores the environment's arguments and answers true exactly when there is not exactly one |
| `CommandLine.CommandLineArgsSubSystem.ProcessCommandArg` | Assets/Scripts/SS3D/CommandLine/CommandLineArgsSubSystem.cs:72-118 | The new settings and error are those of ProcessArg on the old settings |
| `CommandLine.CommandLineArgsSubSystem.ProcessCommandLineArgs` | Assets/Scripts/SS3D/CommandLine/CommandLineArgsSubSystem.cs:41-60 | Stores the arguments and applies them in order, stopping at the first one that throws; the result is ProcessArgs on the old settings |

## Findings

| source | as written | input that shows it | evidently intended | confidence | as-written member | corrected member |
|---|---|---|---|---|---|---|
| Assets/Scripts/SS3D/Systems/Roles/RoleSubSystem.cs:121-127 | `FirstOrDefault` on the dictionary returns a `KeyValuePair` struct, which is never null once converted to `KeyValuePair?`. For a player with no recorded role the guard passes, the role read is null, and `First(rc => rc.Role == null)` throws | A Removal event for a player who never got a role, for example one who joined while no Assistant counter existed | A player with no recorded role is ignored, as the null guard suggests | high (not executed) | `Roles.RemoveFromCountersAsWritten`, exhibited by `Roles.RemoveUnmappedPlayerThrows` | `Roles.RemoveFromCounters` |

## Left out

- CommandLine.ToUInt16: only plain digit strings are modelled. `Convert.ToUInt16` also accepts surrounding white space and a sign, which the model refuses as a format error.
- CommandLine marker strings: the `CommandLineArgs` constants are not part of this model. They are a `Markers` parameter, and the only assumption is that none is empty.
- The settings objects: `NetworkSettings.ResetOnBuiltApplication`, `ScriptableSettings.GetOrFind` and the editor check are outside the model. The settings found are the class's initial values, and they are held as values, not as shared objects.
- Loading the arguments from the process environment is a parameter. The `Environment.GetCommandLineArgs` exception and the log lines are left out.
- `OneElementOnly` is not part of this model. It is taken to mean "exactly one element".
- Tiles.TileLocation: `ITileLocation`, `SingleTileLocation` and `PlacedTileObject` are not part of this model. Their emptiness tests, name strings and generic type are modelled from their use in the build rules.
- Direction: only the four cardinal directions are modelled.
- BuildChecker: the `Debug.LogError` on a non-single Plenum location is dropped. The verdict there, false, is kept.
- BuildChecker: the grid position is used only to look up neighbours, so it is replaced by the neighbour objects themselves.
- Placing and clearing objects, the tile map, and saving and loading maps are left out. `TileSubSystem` only dispatches to a map that is not part of this model.
- VendingMachines: audio, the random spawn rotation, the item system and `MachinePowerConsumer` are effects outside the machine. The power status is a field, and power uses and spawned items are recorded as a counter and a list.
- `VendingMachineProductStock` is not part of this model. Its stock is an `int` array updated in place, which gives the reference semantics the comment at VendingMachine.cs:48-50 implies. The `int` decrement cannot wrap, because it only happens on a positive stock.
- VendingMachines: the `CmdDispenseProduct` remote call is a network entry point that only forwards to `DispenseProduct`.
- Roles: `RoleCounter` is not part of this model. It is taken to hold its players as a list, with `CurrentRoles` the list's length, `AddPlayer` appending and `RemovePlayer` dropping the first occurrence.
- Roles: role data are compared by value, where the engine compares asset references.
- Roles: the loadout and identification item spawning, the event subscription in `Setup`, and logging are left out. They are calls into inventory, item and event systems that are not part of this model.
- Roles: a missing roles asset is an error result. In the engine it is a logged error followed by a null-reference exception.
