/**
 * The per-cell data the build rules read: directions, the layers of a cell, the objects
 * placed on them and the two kinds of tile location (single-slot and one slot per direction).
 */
module Tiles {
  import opened Wrappers

  /** The four cardinal directions an object can face. */
  datatype Direction = North | East | South | West

  /** The cardinal direction a quarter turn clockwise from `dir`. */
  function NextCardinalDir(dir: Direction): Direction {
    match dir
    case North => East
    case East => South
    case South => West
    case West => North
  }

  /** The cardinal direction a quarter turn counter-clockwise from `dir`. */
  function PreviousCardinalDir(dir: Direction): Direction {
    match dir
    case North => West
    case East => North
    case South => East
    case West => South
  }

  /** One value per cardinal direction. */
  datatype Around<T> = Around(north: T, east: T, south: T, west: T) {
    function At(dir: Direction): T {
      match dir
      case North => north
      case East => east
      case South => south
      case West => west
    }
  }

  /** The layers of a cell, bottom to top. */
  datatype TileLayer = Plenum | Turf | WallMountHigh | WallMountLow | FurnitureBase | FurnitureTop

  /** The ordinal of a layer, which is its index in a cell's array of locations; Plenum is 0. */
  function Ordinal(layer: TileLayer): (i: nat)
    ensures i < LayerCount
    ensures i == 0 <==> layer == Plenum
  {
    match layer
    case Plenum => 0
    case Turf => 1
    case WallMountHigh => 2
    case WallMountLow => 3
    case FurnitureBase => 4
    case FurnitureTop => 5
  }

  const LayerCount: nat := 6

  predicate IsWallMountLayer(layer: TileLayer) {
    layer == WallMountHigh || layer == WallMountLow
  }

  predicate IsFurnitureLayer(layer: TileLayer) {
    layer == FurnitureBase || layer == FurnitureTop
  }

  /** The generic category of an object; only walls are told apart by the rules. */
  datatype TileObjectGenericType = Wall | OtherGenericType

  /**
   * An object already placed on a location: its category, its definition's `NameString`
   * and its game object's `name` (the two strings the rules search for substrings).
   */
  datatype PlacedTileObject = PlacedTileObject(genericType: TileObjectGenericType, nameString: string, name: string)

  /** The definition of an object someone wants to place. */
  datatype TileObjectSo = TileObjectSo(layer: TileLayer, genericType: TileObjectGenericType, isLarge: bool)

  /** What one layer of one cell holds. */
  datatype TileLocation =
    | Single(placedObject: Option<PlacedTileObject>)
    | Directional(slots: Around<Option<PlacedTileObject>>)
  {
    /** The slot in `dir` is free; a single-slot location ignores the direction. */
    predicate IsEmpty(dir: Direction) {
      match this
      case Single(o) => o.None?
      case Directional(s) => s.At(dir).None?
    }

    /** Nothing is placed here in any direction. */
    function IsFullyEmpty(): (r: bool)
      ensures r <==> forall dir: Direction :: IsEmpty(dir)
    {
      match this
      case Single(o) =>
        assert IsEmpty(North) == o.None?;
        o.None?
      case Directional(s) =>
        assert IsEmpty(North) && IsEmpty(East) && IsEmpty(South) && IsEmpty(West) <==>
          s.north.None? && s.east.None? && s.south.None? && s.west.None?;
        s.north.None? && s.east.None? && s.south.None? && s.west.None?
    }
  }

  /** The same location with every slot freed. */
  function Cleared(location: TileLocation): (r: TileLocation)
    ensures r.IsFullyEmpty()
    ensures r.Single? == location.Single?
  {
    match location
    case Single(_) => Single(None)
    case Directional(_) => Directional(Around(None, None, None, None))
  }
}
