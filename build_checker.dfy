/**
 * The build rules of one tile cell: whether an object may be placed on a layer
 * (CanBuild), and which layers must be cleared once a supporting layer is empty
 * (GetToBeClearedLocations). Both only read the cell.
 */
module BuildChecker {
  import opened Wrappers
  import opened Strings
  import opened Tiles

  /**
   * A cell: one location per layer, indexed by layer ordinal. The layer enumeration may
   * hold further layers after the named ones; they are further entries here.
   */
  type Cell = seq<TileLocation>

  predicate IsCell(cell: Cell) {
    |cell| >= LayerCount
  }

  function At(cell: Cell, layer: TileLayer): TileLocation
    requires IsCell(cell)
  {
    cell[Ordinal(layer)]
  }

  /** Objects around a cell, one per cardinal direction, `None` where there is none. */
  type Neighbours = Around<Option<PlacedTileObject>>

  /**
   * What CanBuild yields: a verdict, or the invalid-cast exception raised when the rules
   * treat a Turf location that is not single-slot as a single-slot one.
   */
  datatype BuildVerdict = Verdict(canBuild: bool) | InvalidCast

  // ---------------------------------------------------------------------------
  // The rules, one predicate each
  // ---------------------------------------------------------------------------

  /** The object on the Turf layer, as the rules read it. */
  function TurfObject(cell: Cell): Option<PlacedTileObject>
    requires IsCell(cell)
  {
    match At(cell, Turf)
    case Single(o) => o
    case Directional(_) => None
  }

  predicate TurfHoldsWall(cell: Cell)
    requires IsCell(cell)
  {
    TurfObject(cell).Some? && TurfObject(cell).value.genericType == Wall
  }

  /** Unless the existing object is to be replaced, the target slot must be free. */
  predicate OccupancyRule(cell: Cell, tileObjectSo: TileObjectSo, dir: Direction, replaceExisting: bool)
    requires IsCell(cell)
  {
    replaceExisting || At(cell, tileObjectSo.layer).IsEmpty(dir)
  }

  /** Anything above the plenum needs a single-slot Plenum location holding a plenum or a catwalk. */
  predicate PlenumRule(cell: Cell, tileObjectSo: TileObjectSo)
    requires IsCell(cell)
  {
    tileObjectSo.layer != Plenum ==>
      match At(cell, Plenum)
      case Directional(_) => false
      case Single(None) => false
      case Single(Some(o)) => Contains(o.nameString, "Plenum") || Contains(o.name, "Catwalk")
  }

  /** A large wall mount also needs the slots a quarter turn either side to be free. */
  predicate LargeMountRule(cell: Cell, tileObjectSo: TileObjectSo, dir: Direction)
    requires IsCell(cell)
  {
    IsWallMountLayer(tileObjectSo.layer) && tileObjectSo.isLarge ==>
      At(cell, tileObjectSo.layer).IsEmpty(NextCardinalDir(dir)) &&
      At(cell, tileObjectSo.layer).IsEmpty(PreviousCardinalDir(dir))
  }

  /** A wall mount needs a wall on the Turf layer. */
  predicate MountNeedsWallRule(cell: Cell, tileObjectSo: TileObjectSo)
    requires IsCell(cell)
  {
    IsWallMountLayer(tileObjectSo.layer) ==> TurfHoldsWall(cell)
  }

  /** No low wall mount on a Turf object whose name string mentions a window. */
  predicate NoLowMountOnWindowRule(cell: Cell, tileObjectSo: TileObjectSo)
    requires IsCell(cell)
  {
    tileObjectSo.layer == WallMountLow && TurfObject(cell).Some? ==>
      !Contains(TurfObject(cell).value.nameString, "Window")
  }

  /** A wall mount must not face a wall next to the cell on its own layer. */
  predicate MountCollisionRule(tileObjectSo: TileObjectSo, dir: Direction, adjacentObjects: Neighbours)
  {
    IsWallMountLayer(tileObjectSo.layer) && adjacentObjects.At(dir).Some? ==>
      adjacentObjects.At(dir).value.genericType != Wall
  }

  /** No furniture inside a wall. */
  predicate NoFurnitureInWallRule(cell: Cell, tileObjectSo: TileObjectSo)
    requires IsCell(cell)
  {
    IsFurnitureLayer(tileObjectSo.layer) ==> !TurfHoldsWall(cell)
  }

  /** No wall on furniture. */
  predicate NoWallOnFurnitureRule(cell: Cell, tileObjectSo: TileObjectSo)
    requires IsCell(cell)
  {
    tileObjectSo.layer == Turf && tileObjectSo.genericType == Wall ==>
      At(cell, FurnitureBase).IsFullyEmpty() && At(cell, FurnitureTop).IsFullyEmpty()
  }

  /** No wall next to an existing wall mount of a neighbouring cell. */
  predicate NoStrandedMountRule(tileObjectSo: TileObjectSo, neighboursHigh: Neighbours, neighboursLow: Neighbours)
  {
    tileObjectSo.layer == Turf && tileObjectSo.genericType == Wall ==>
      forall dir: Direction :: neighboursHigh.At(dir).None? && neighboursLow.At(dir).None?
  }

  /** Every rule at once. */
  predicate BuildRules(cell: Cell, tileObjectSo: TileObjectSo, dir: Direction, adjacentObjects: Neighbours,
                       neighboursHigh: Neighbours, neighboursLow: Neighbours, replaceExisting: bool)
    requires IsCell(cell)
  {
    && OccupancyRule(cell, tileObjectSo, dir, replaceExisting)
    && PlenumRule(cell, tileObjectSo)
    && LargeMountRule(cell, tileObjectSo, dir)
    && MountNeedsWallRule(cell, tileObjectSo)
    && NoLowMountOnWindowRule(cell, tileObjectSo)
    && MountCollisionRule(tileObjectSo, dir, adjacentObjects)
    && NoFurnitureInWallRule(cell, tileObjectSo)
    && NoWallOnFurnitureRule(cell, tileObjectSo)
    && NoStrandedMountRule(tileObjectSo, neighboursHigh, neighboursLow)
  }

  /**
   * The Turf location is cast to a single-slot one, and is not one: always for furniture
   * (once the Plenum location is single-slot), and for wall mounts once the occupancy and
   * plenum checks have passed.
   */
  predicate CastFails(cell: Cell, tileObjectSo: TileObjectSo, dir: Direction, replaceExisting: bool)
    requires IsCell(cell)
  {
    && !At(cell, Turf).Single?
    && (|| (IsFurnitureLayer(tileObjectSo.layer) && At(cell, Plenum).Single?)
        || (IsWallMountLayer(tileObjectSo.layer) && OccupancyRule(cell, tileObjectSo, dir, replaceExisting)
            && PlenumRule(cell, tileObjectSo)))
  }

  // ---------------------------------------------------------------------------
  // The checks as the engine runs them
  // ---------------------------------------------------------------------------

  /** The single-slot location holds a wall. */
  function IsWall(wallLocation: TileLocation): (r: bool)
    requires wallLocation.Single?
    ensures r ==> !wallLocation.IsFullyEmpty()
  {
    !wallLocation.IsFullyEmpty() && wallLocation.placedObject.value.genericType == Wall
  }

  /** A wall mount may not face a wall in the neighbouring cell. */
  function CanBuildWallCollision(tileObjectSo: TileObjectSo, dir: Direction, adjacentObjects: Neighbours): (r: bool)
    ensures r == MountCollisionRule(tileObjectSo, dir, adjacentObjects)
  {
    var canBuild := true;
    if tileObjectSo.layer == WallMountHigh || tileObjectSo.layer == WallMountLow then
      canBuild && !(adjacentObjects.At(dir).Some? && adjacentObjects.At(dir).value.genericType == Wall)
    else
      canBuild
  }

  /** A wall mount needs a wall, no window when low, and no colliding neighbour. */
  function CanBuildWallAttachment(wallLocation: TileLocation, wallAttachment: TileObjectSo, dir: Direction,
                                  adjacentObjects: Neighbours): (r: bool)
    requires wallLocation.Single?
    ensures r ==> IsWall(wallLocation)
    ensures r ==> CanBuildWallCollision(wallAttachment, dir, adjacentObjects)
  {
    var isWall := IsWall(wallLocation);
    var noWindow :=
      if !wallLocation.IsEmpty(dir) then
        !(Contains(wallLocation.placedObject.value.nameString, "Window") && wallAttachment.layer == WallMountLow)
      else
        true;
    isWall && noWindow && CanBuildWallCollision(wallAttachment, dir, adjacentObjects)
  }

  /**
   * No neighbouring cell has a wall mount. The engine looks the neighbours up in the
   * current map; here they are passed in.
   */
  function NoNeighbouringWallMount(neighboursHigh: Neighbours, neighboursLow: Neighbours): (r: bool)
    ensures r <==> forall dir: Direction :: neighboursHigh.At(dir).None? && neighboursLow.At(dir).None?
  {
    var anyHigh := neighboursHigh.north.Some? || neighboursHigh.east.Some? || neighboursHigh.south.Some? || neighboursHigh.west.Some?;
    var anyLow := neighboursLow.north.Some? || neighboursLow.east.Some? || neighboursLow.south.Some? || neighboursLow.west.Some?;
    assert anyHigh || anyLow <==> exists dir: Direction :: neighboursHigh.At(dir).Some? || neighboursLow.At(dir).Some? by {
      assert neighboursHigh.At(North) == neighboursHigh.north && neighboursLow.At(North) == neighboursLow.north;
      assert neighboursHigh.At(East) == neighboursHigh.east && neighboursLow.At(East) == neighboursLow.east;
      assert neighboursHigh.At(South) == neighboursHigh.south && neighboursLow.At(South) == neighboursLow.south;
      assert neighboursHigh.At(West) == neighboursHigh.west && neighboursLow.At(West) == neighboursLow.west;
    }
    if anyHigh || anyLow then false else true
  }

  /** Only a plenum, or a catwalk, carries what is built above it. */
  function CanBuildOnPlenum(plenumLocation: TileLocation): (r: bool)
    requires plenumLocation.Single?
    ensures r ==> !plenumLocation.IsFullyEmpty()
  {
    if !plenumLocation.IsFullyEmpty() then
      Contains(plenumLocation.placedObject.value.nameString, "Plenum") || Contains(plenumLocation.placedObject.value.name, "Catwalk")
    else
      false
  }

  /**
   * Whether `tileObjectSo` may be placed facing `dir` on the cell `tileLocations`.
   * `adjacentObjects` are the neighbouring cells' objects on the candidate's layer;
   * `neighboursHigh` and `neighboursLow` their WallMountHigh and WallMountLow objects.
   * The verdict is exactly the conjunction of the rules above.
   */
  function CanBuild(tileLocations: Cell, tileObjectSo: TileObjectSo, dir: Direction, adjacentObjects: Neighbours,
                    neighboursHigh: Neighbours, neighboursLow: Neighbours, replaceExisting: bool): (r: BuildVerdict)
    requires IsCell(tileLocations)
    ensures r == if CastFails(tileLocations, tileObjectSo, dir, replaceExisting) then InvalidCast
                 else Verdict(BuildRules(tileLocations, tileObjectSo, dir, adjacentObjects, neighboursHigh, neighboursLow, replaceExisting))
  {
    var placedLayer := tileObjectSo.layer;
    var target := At(tileLocations, placedLayer);
    var free := replaceExisting || target.IsEmpty(dir);
    var plenum := At(tileLocations, Plenum);
    if placedLayer != Plenum && !plenum.Single? then
      Verdict(false)
    else
      var canBuild := free && (placedLayer != Plenum ==> CanBuildOnPlenum(plenum));
      var turf := At(tileLocations, Turf);
      if IsWallMountLayer(placedLayer) && canBuild then
        if !turf.Single? then
          InvalidCast
        else
          var footprint :=
            && !(tileObjectSo.isLarge && !target.IsEmpty(NextCardinalDir(dir)))
            && !(tileObjectSo.isLarge && !target.IsEmpty(PreviousCardinalDir(dir)));
          Verdict(canBuild && footprint && CanBuildWallAttachment(turf, tileObjectSo, dir, adjacentObjects))
      else if IsFurnitureLayer(placedLayer) then
        if !turf.Single? then
          InvalidCast
        else
          Verdict(canBuild && !IsWall(turf))
      else if placedLayer == Turf && tileObjectSo.genericType == Wall then
        var noFurniture := At(tileLocations, FurnitureBase).IsFullyEmpty() && At(tileLocations, FurnitureTop).IsFullyEmpty();
        Verdict(canBuild && noFurniture && NoNeighbouringWallMount(neighboursHigh, neighboursLow))
      else
        Verdict(canBuild)
  }

  // ---------------------------------------------------------------------------
  // Properties of CanBuild
  // ---------------------------------------------------------------------------

  /**
   * Each check the engine runs on a single-slot Turf location is one of the rules: the wall
   * test is "the Turf object's generic type is Wall", the collision test is the collision
   * rule, and for a wall mount the attachment test is the wall, window and collision rules
   * together.
   */
  lemma WallChecksFollowRules(cell: Cell, tileObjectSo: TileObjectSo, dir: Direction, adjacentObjects: Neighbours)
    requires IsCell(cell) && At(cell, Turf).Single?
    ensures IsWall(At(cell, Turf)) <==> TurfHoldsWall(cell)
    ensures CanBuildWallCollision(tileObjectSo, dir, adjacentObjects) <==> MountCollisionRule(tileObjectSo, dir, adjacentObjects)
    ensures IsWallMountLayer(tileObjectSo.layer) ==>
      (CanBuildWallAttachment(At(cell, Turf), tileObjectSo, dir, adjacentObjects) <==>
         && MountNeedsWallRule(cell, tileObjectSo)
         && NoLowMountOnWindowRule(cell, tileObjectSo)
         && MountCollisionRule(tileObjectSo, dir, adjacentObjects))
  {
  }

  /**
   * The engine's plenum check on a single-slot Plenum location is the plenum rule: something
   * is placed there, and its name string mentions "Plenum" or its name mentions "Catwalk".
   */
  lemma PlenumCheckFollowsRule(cell: Cell, tileObjectSo: TileObjectSo)
    requires IsCell(cell) && At(cell, Plenum).Single? && tileObjectSo.layer != Plenum
    ensures CanBuildOnPlenum(At(cell, Plenum)) <==> PlenumRule(cell, tileObjectSo)
    ensures CanBuildOnPlenum(At(cell, Plenum)) <==>
      && At(cell, Plenum).placedObject.Some?
      && (|| Contains(At(cell, Plenum).placedObject.value.nameString, "Plenum")
          || Contains(At(cell, Plenum).placedObject.value.name, "Catwalk"))
  {
  }

  /** Replacing the existing object can only allow more placements. */
  lemma ReplaceExistingOnlyWidens(cell: Cell, tileObjectSo: TileObjectSo, dir: Direction, adjacentObjects: Neighbours,
                                  neighboursHigh: Neighbours, neighboursLow: Neighbours)
    requires IsCell(cell)
    requires CanBuild(cell, tileObjectSo, dir, adjacentObjects, neighboursHigh, neighboursLow, false) == Verdict(true)
    ensures CanBuild(cell, tileObjectSo, dir, adjacentObjects, neighboursHigh, neighboursLow, true) == Verdict(true)
  {
  }

  /** Without replacement an occupied target slot is never built on. */
  lemma OccupiedSlotRejected(cell: Cell, tileObjectSo: TileObjectSo, dir: Direction, adjacentObjects: Neighbours,
                             neighboursHigh: Neighbours, neighboursLow: Neighbours)
    requires IsCell(cell) && !At(cell, tileObjectSo.layer).IsEmpty(dir)
    ensures CanBuild(cell, tileObjectSo, dir, adjacentObjects, neighboursHigh, neighboursLow, false) != Verdict(true)
  {
  }

  /**
   * Above the plenum nothing is built when the Plenum location is empty, or when its
   * object's name string lacks "Plenum" and its game-object name lacks "Catwalk".
   */
  lemma PlenumRequired(cell: Cell, tileObjectSo: TileObjectSo, dir: Direction, adjacentObjects: Neighbours,
                       neighboursHigh: Neighbours, neighboursLow: Neighbours, replaceExisting: bool)
    requires IsCell(cell) && tileObjectSo.layer != Plenum
    requires || At(cell, Plenum).IsFullyEmpty()
             || (At(cell, Plenum).Single? && At(cell, Plenum).placedObject.Some?
                 && !Contains(At(cell, Plenum).placedObject.value.nameString, "Plenum")
                 && !Contains(At(cell, Plenum).placedObject.value.name, "Catwalk"))
    ensures CanBuild(cell, tileObjectSo, dir, adjacentObjects, neighboursHigh, neighboursLow, replaceExisting) != Verdict(true)
  {
  }

  /** A large wall mount is rejected when a slot a quarter turn either side is taken. */
  lemma LargeMountFootprint(cell: Cell, tileObjectSo: TileObjectSo, dir: Direction, adjacentObjects: Neighbours,
                            neighboursHigh: Neighbours, neighboursLow: Neighbours, replaceExisting: bool)
    requires IsCell(cell) && IsWallMountLayer(tileObjectSo.layer) && tileObjectSo.isLarge
    requires !At(cell, tileObjectSo.layer).IsEmpty(NextCardinalDir(dir))
          || !At(cell, tileObjectSo.layer).IsEmpty(PreviousCardinalDir(dir))
    ensures CanBuild(cell, tileObjectSo, dir, adjacentObjects, neighboursHigh, neighboursLow, replaceExisting) != Verdict(true)
  {
  }

  /**
   * A wall mount that is allowed stands on a wall, faces no neighbouring wall, and, if low,
   * the wall's name string does not mention a window.
   */
  lemma AllowedWallMount(cell: Cell, tileObjectSo: TileObjectSo, dir: Direction, adjacentObjects: Neighbours,
                         neighboursHigh: Neighbours, neighboursLow: Neighbours, replaceExisting: bool)
    requires IsCell(cell) && IsWallMountLayer(tileObjectSo.layer)
    requires CanBuild(cell, tileObjectSo, dir, adjacentObjects, neighboursHigh, neighboursLow, replaceExisting) == Verdict(true)
    ensures At(cell, Turf).Single? && At(cell, Turf).placedObject.Some?
    ensures At(cell, Turf).placedObject.value.genericType == Wall
    ensures tileObjectSo.layer == WallMountLow ==> !Contains(At(cell, Turf).placedObject.value.nameString, "Window")
    ensures adjacentObjects.At(dir).None? || adjacentObjects.At(dir).value.genericType != Wall
  {
  }

  /**
   * The window rule applies to low mounts only: renaming the wall changes nothing for a
   * WallMountHigh candidate.
   */
  lemma HighMountIgnoresWallName(cell: Cell, tileObjectSo: TileObjectSo, dir: Direction, adjacentObjects: Neighbours,
                                 neighboursHigh: Neighbours, neighboursLow: Neighbours, replaceExisting: bool,
                                 newNameString: string)
    requires IsCell(cell) && tileObjectSo.layer == WallMountHigh
    requires At(cell, Turf).Single? && At(cell, Turf).placedObject.Some?
    ensures var wall := At(cell, Turf).placedObject.value;
            var renamed := cell[Ordinal(Turf) := Single(Some(wall.(nameString := newNameString)))];
            CanBuild(renamed, tileObjectSo, dir, adjacentObjects, neighboursHigh, neighboursLow, replaceExisting)
            == CanBuild(cell, tileObjectSo, dir, adjacentObjects, neighboursHigh, neighboursLow, replaceExisting)
  {
  }

  /** No furniture is allowed inside a wall. */
  lemma NoFurnitureInWalls(cell: Cell, tileObjectSo: TileObjectSo, dir: Direction, adjacentObjects: Neighbours,
                           neighboursHigh: Neighbours, neighboursLow: Neighbours, replaceExisting: bool)
    requires IsCell(cell) && IsFurnitureLayer(tileObjectSo.layer)
    requires At(cell, Turf).Single? && At(cell, Turf).placedObject.Some?
    requires At(cell, Turf).placedObject.value.genericType == Wall
    ensures CanBuild(cell, tileObjectSo, dir, adjacentObjects, neighboursHigh, neighboursLow, replaceExisting) != Verdict(true)
  {
  }

  /**
   * A wall on the Turf layer that is allowed has both furniture layers empty and no wall
   * mount in any neighbouring cell.
   */
  lemma AllowedWall(cell: Cell, tileObjectSo: TileObjectSo, dir: Direction, adjacentObjects: Neighbours,
                    neighboursHigh: Neighbours, neighboursLow: Neighbours, replaceExisting: bool)
    requires IsCell(cell) && tileObjectSo.layer == Turf && tileObjectSo.genericType == Wall
    requires CanBuild(cell, tileObjectSo, dir, adjacentObjects, neighboursHigh, neighboursLow, replaceExisting) == Verdict(true)
    ensures At(cell, FurnitureBase).IsFullyEmpty() && At(cell, FurnitureTop).IsFullyEmpty()
    ensures forall d: Direction :: neighboursHigh.At(d).None? && neighboursLow.At(d).None?
  {
  }

  // ---------------------------------------------------------------------------
  // The cascade
  // ---------------------------------------------------------------------------

  /**
   * The layers (by ordinal) to clear, first matching rule winning: everything above the
   * plenum when the plenum is gone, the wall mounts when the turf is gone, the furniture
   * top when the furniture base is gone.
   */
  function ToBeCleared(cell: Cell): seq<nat>
    requires IsCell(cell)
  {
    if At(cell, Plenum).IsFullyEmpty() then seq(|cell| - 1, i => i + 1)
    else if At(cell, Turf).IsFullyEmpty() then [Ordinal(WallMountHigh), Ordinal(WallMountLow)]
    else if At(cell, FurnitureBase).IsFullyEmpty() then [Ordinal(FurnitureTop)]
    else []
  }

  /** The cell after the locations at `layers` have been emptied. */
  function ClearLocations(cell: Cell, layers: seq<nat>): (r: Cell)
    ensures |r| == |cell|
    ensures forall i :: 0 <= i < |cell| && i !in layers ==> r[i] == cell[i]
    ensures forall i :: 0 <= i < |cell| && i in layers ==> r[i] == Cleared(cell[i])
  {
    seq(|cell|, i requires 0 <= i < |cell| => if i in layers then Cleared(cell[i]) else cell[i])
  }

  /** Every layer stands on a non-empty plenum. */
  predicate PlenumSupports(cell: Cell)
    requires IsCell(cell)
  {
    At(cell, Plenum).IsFullyEmpty() ==> forall i :: 0 < i < |cell| ==> cell[i].IsFullyEmpty()
  }

  /**
   * Lists the locations of `tileObjects` to clear, as layer ordinals, without changing
   * `tileObjects`.
   */
  method GetToBeClearedLocations(tileObjects: array<TileLocation>) returns (toBeDestroyedList: seq<nat>)
    requires tileObjects.Length >= LayerCount
    ensures toBeDestroyedList == ToBeCleared(tileObjects[..])
  {
    toBeDestroyedList := [];
    if tileObjects[Ordinal(Plenum)].IsFullyEmpty() {
      for i := 1 to tileObjects.Length
        invariant toBeDestroyedList == seq(i - 1, j => j + 1)
      {
        toBeDestroyedList := toBeDestroyedList + [i];
      }
    } else if tileObjects[Ordinal(Turf)].IsFullyEmpty() {
      toBeDestroyedList := toBeDestroyedList + [Ordinal(WallMountHigh)];
      toBeDestroyedList := toBeDestroyedList + [Ordinal(WallMountLow)];
    } else if tileObjects[Ordinal(FurnitureBase)].IsFullyEmpty() {
      toBeDestroyedList := toBeDestroyedList + [Ordinal(FurnitureTop)];
    }
  }

  /** The plenum is never listed, every listed layer exists, and the list is in layer order. */
  lemma CascadeListsLayersAbovePlenum(cell: Cell)
    requires IsCell(cell)
    ensures forall k :: k in ToBeCleared(cell) ==> 0 < k < |cell|
    ensures forall i, j :: 0 <= i < j < |ToBeCleared(cell)| ==> ToBeCleared(cell)[i] < ToBeCleared(cell)[j]
  {
  }

  /** Clearing what the cascade lists restores the support the first matching rule found missing. */
  lemma {:induction false} CascadeRestoresSupport(cell: Cell)
    requires IsCell(cell)
    ensures var after := ClearLocations(cell, ToBeCleared(cell));
      && IsCell(after)
      && PlenumSupports(after)
      && (!At(cell, Plenum).IsFullyEmpty() && At(cell, Turf).IsFullyEmpty() ==>
            At(after, WallMountHigh).IsFullyEmpty() && At(after, WallMountLow).IsFullyEmpty())
      && (!At(cell, Plenum).IsFullyEmpty() && !At(cell, Turf).IsFullyEmpty() && At(cell, FurnitureBase).IsFullyEmpty() ==>
            At(after, FurnitureTop).IsFullyEmpty())
  {
    var list := ToBeCleared(cell);
    var after := ClearLocations(cell, list);
    if At(cell, Plenum).IsFullyEmpty() {
      assert 0 !in list;
      forall i | 0 < i < |cell| ensures after[i].IsFullyEmpty() {
        assert list[i - 1] == i;
      }
    } else if At(cell, Turf).IsFullyEmpty() {
      assert list[0] == Ordinal(WallMountHigh) && list[1] == Ordinal(WallMountLow);
    } else if At(cell, FurnitureBase).IsFullyEmpty() {
      assert list[0] == Ordinal(FurnitureTop);
    }
  }

  /**
   * Resolving again after the clearing asks for the same layers, and clearing them again
   * changes nothing: one pass reaches the fixed point.
   */
  lemma CascadeIsStable(cell: Cell)
    requires IsCell(cell)
    ensures var after := ClearLocations(cell, ToBeCleared(cell));
      && IsCell(after)
      && ToBeCleared(after) == ToBeCleared(cell)
      && ClearLocations(after, ToBeCleared(after)) == after
  {
  }


  /**
   * First match wins: with the turf and the furniture base both gone, only the wall mounts
   * are listed, and a furniture top stays.
   */
  lemma FurnitureTopOutlivesMissingTurf(cell: Cell)
    requires IsCell(cell)
    requires !At(cell, Plenum).IsFullyEmpty() && At(cell, Turf).IsFullyEmpty() && At(cell, FurnitureBase).IsFullyEmpty()
    ensures ToBeCleared(cell) == [Ordinal(WallMountHigh), Ordinal(WallMountLow)]
    ensures Ordinal(FurnitureTop) !in ToBeCleared(cell)
  {
  }

  // ---------------------------------------------------------------------------
  // A worked scenario
  // ---------------------------------------------------------------------------

  const NoNeighbours: Neighbours := Around(None, None, None, None)

  /** A cell with a plenum and the given Turf location, everything else empty. */
  function CellWithTurf(turf: TileLocation): (cell: Cell)
    ensures IsCell(cell)
  {
    [Single(Some(Plenum0)), turf,
     Directional(NoNeighbours), Directional(NoNeighbours), Single(None), Single(None)]
  }

  const Plenum0: PlacedTileObject := PlacedTileObject(OtherGenericType, "Plenum", "Plenum")
  const Wall0: PlacedTileObject := PlacedTileObject(Wall, "Wall", "Wall")

  lemma PlenumObjectCarries(cell: Cell, tileObjectSo: TileObjectSo)
    requires IsCell(cell) && At(cell, Plenum) == Single(Some(Plenum0))
    ensures PlenumRule(cell, tileObjectSo)
  {
    assert OccursAt("Plenum", "Plenum", 0);
  }

  /** On a bare plenum a wall may be built. */
  lemma WallOnBarePlenum()
    ensures CanBuild(CellWithTurf(Single(None)), TileObjectSo(Turf, Wall, false), North,
                     NoNeighbours, NoNeighbours, NoNeighbours, false) == Verdict(true)
  {
    PlenumObjectCarries(CellWithTurf(Single(None)), TileObjectSo(Turf, Wall, false));
  }

  /** Once a wall stands, furniture may not be built in it, but a large high wall mount may. */
  lemma BuildingAgainstAWall()
    ensures var walled := CellWithTurf(Single(Some(Wall0)));
      && CanBuild(walled, TileObjectSo(FurnitureBase, OtherGenericType, false), North,
                  NoNeighbours, NoNeighbours, NoNeighbours, false) == Verdict(false)
      && CanBuild(walled, TileObjectSo(WallMountHigh, OtherGenericType, true), North,
                  NoNeighbours, NoNeighbours, NoNeighbours, false) == Verdict(true)
  {
    var walled := CellWithTurf(Single(Some(Wall0)));
    PlenumObjectCarries(walled, TileObjectSo(WallMountHigh, OtherGenericType, true));
  }

  /** Removing the wall from that cell clears exactly the two wall-mount layers. */
  lemma RemovingTheWall()
    ensures ToBeCleared(CellWithTurf(Single(None))) == [Ordinal(WallMountHigh), Ordinal(WallMountLow)]
  {
  }
}
