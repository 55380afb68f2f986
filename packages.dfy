/** The older package modules `src/__init__.py` and `wanderer/__init__.py`:
    their constructor checks and their `parse_location`, which builds a map
    marker from a location's config entry. Their `Position2D` and
    `parse_route_str` are the ones of the `Vectors` and `RouteSyntax` modules. */
module Packages {
  import opened Results
  import opened Vectors
  import Games

  /** The package's `GameMap`, before any location is added. */
  datatype GameMap = GameMap(gameName: string, name: string, imageFile: string, speedMultiplier: real)

  /** A named position on a package map (`MapMarker`). */
  datatype MapMarker = MapMarker(name: string, gameMap: GameMap, position: Position2D)

  /** `MovementType(...)` of the package: the assertion is
      `pixels_per_second > 0`, so a speed of zero is refused as well. */
  function NewMovementType(name: string, pixelsPerSecond: real, colourCode: string): (r: Result<Games.MovementType>)
    ensures r.Ok? <==> 0.0 < pixelsPerSecond
    ensures r.Ok? ==> r.value == Games.MovementType(name, pixelsPerSecond, colourCode)
    ensures r.Err? ==> r.error == InvalidArgument("pixels_per_second")
  {
    if 0.0 < pixelsPerSecond then Ok(Games.MovementType(name, pixelsPerSecond, colourCode))
    else Err(InvalidArgument("pixels_per_second"))
  }

  /** `GameMap(game, name, image_file, speed_multiplier)`: the assertion
      `speed_multiplier > 0`. */
  function NewGameMap(gameName: string, name: string, imageFile: string, speedMultiplier: real): (r: Result<GameMap>)
    ensures r.Ok? <==> 0.0 < speedMultiplier
    ensures r.Ok? ==> r.value == GameMap(gameName, name, imageFile, speedMultiplier)
    ensures r.Err? ==> r.error == InvalidArgument("speed_multiplier")
  {
    if 0.0 < speedMultiplier then Ok(GameMap(gameName, name, imageFile, speedMultiplier))
    else Err(InvalidArgument("speed_multiplier"))
  }

  /** Every kind of movement the package accepts, the game model accepts
      too, but a standing speed of zero is accepted only by the game model. */
  lemma MovementTypeChecksDiffer(name: string, pixelsPerSecond: real, colourCode: string)
    ensures NewMovementType(name, pixelsPerSecond, colourCode).Ok? ==>
              Games.NewMovementType(name, pixelsPerSecond, colourCode) == NewMovementType(name, pixelsPerSecond, colourCode)
    ensures Games.NewMovementType(name, 0.0, colourCode).Ok? && NewMovementType(name, 0.0, colourCode).Err?
  {
  }

  /** `parse_location(location_config, game_map)`: `["name"]`, then `["x"]`,
      then `["y"]` of the entry, on the given map; the first missing key is a
      KeyError. */
  function ParseLocation(config: Games.LocationConfig, gameMap: GameMap): (r: Result<MapMarker>)
    ensures r.Ok? <==> config.name.Some? && config.x.Some? && config.y.Some?
    ensures config.name.None? ==> r == Err(MissingKey("name"))
    ensures config.name.Some? && config.x.None? ==> r == Err(MissingKey("x"))
    ensures config.name.Some? && config.x.Some? && config.y.None? ==> r == Err(MissingKey("y"))
    ensures r.Ok? ==> r.value.gameMap == gameMap
  {
    match config
    case LocationConfig(None, _, _) => Err(MissingKey("name"))
    case LocationConfig(_, None, _) => Err(MissingKey("x"))
    case LocationConfig(_, _, None) => Err(MissingKey("y"))
    case LocationConfig(Some(name), Some(x), Some(y)) => Ok(MapMarker(name, gameMap, Position2D(x, y)))
  }

  /** The packages read an entry as `Location.load_from_config` of
      wanderer/game.py does: the same failures, and otherwise a marker with
      the same name and position. */
  lemma ParseLocationAgrees(config: Games.LocationConfig, gameMap: GameMap, loadingMap: Games.GameMap)
    ensures var marker := ParseLocation(config, gameMap);
            var location := Games.LocationFromConfig(config, loadingMap);
            marker.Ok? == location.Ok? &&
            (marker.Err? ==> marker.error == location.error) &&
            (marker.Ok? ==> marker.value.name == location.value.name && marker.value.position == location.value.position)
  {
  }
}
