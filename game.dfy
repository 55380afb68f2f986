/** The game model of `wanderer/game.py`: locations on maps, kinds of
    movement, a map's slug-keyed location table, location resolution across
    maps, and the compilation of a route file into a chain of movements. */
module Games {
  import opened Results
  import opened Foreign
  import opened Numbers
  import opened Vectors
  import opened Images
  import opened RouteSyntax

  /** A named point on one map. */
  datatype Location = Location(name: string, position: Position2D, gameMap: GameMap)

  datatype MovementType = MovementType(name: string, pixelsPerSecond: real, colourCode: string)

  /** One leg of a route: from `start` to `end` by `movementType`. */
  datatype Movement = Movement(start: Location, end: Location, movementType: MovementType)

  /** `MovementType(name, pixels_per_second, colour_code)`: the assertion
      `pixels_per_second >= 0` fails for a negative speed. */
  function NewMovementType(name: string, pixelsPerSecond: real, colourCode: string): (r: Result<MovementType>)
    ensures r.Ok? <==> 0.0 <= pixelsPerSecond
    ensures r.Ok? ==> r.value == MovementType(name, pixelsPerSecond, colourCode)
    ensures r.Err? ==> r.error == InvalidArgument("pixels_per_second")
  {
    if 0.0 <= pixelsPerSecond then Ok(MovementType(name, pixelsPerSecond, colourCode))
    else Err(InvalidArgument("pixels_per_second"))
  }

  /** A location's entry in a map's config file: the three keys the loader
      reads, each of which may be missing. Other keys are not read. */
  datatype LocationConfig = LocationConfig(name: Option<string>, x: Option<real>, y: Option<real>)

  /** `Location.load_from_config`: `location_config["name"]`, then `["x"]`,
      then `["y"]`, on the map that loads it; the first missing key is a
      KeyError. */
  function LocationFromConfig(config: LocationConfig, gameMap: GameMap): (r: Result<Location>)
    ensures r.Ok? <==> config.name.Some? && config.x.Some? && config.y.Some?
    ensures config.name.None? ==> r == Err(MissingKey("name"))
    ensures config.name.Some? && config.x.None? ==> r == Err(MissingKey("x"))
    ensures config.name.Some? && config.x.Some? && config.y.None? ==> r == Err(MissingKey("y"))
    ensures r.Ok? ==> r.value.gameMap == gameMap
  {
    match config
    case LocationConfig(None, _, _) => Err(MissingKey("name"))
    case LocationConfig(_, None, _) => Err(MissingKey("x"))
    case LocationConfig(_, _, None) => Err(MissingKey("y"))
    case LocationConfig(Some(name), Some(x), Some(y)) => Ok(Location(name, Position2D(x, y), gameMap))
  }

  /** The entry a location is written as in its map's config file. */
  function ConfigOf(location: Location): LocationConfig {
    LocationConfig(Some(location.name), Some(location.position.x), Some(location.position.y))
  }

  /** Loading the entry of a location gives that location back, and a loaded
      location is written as the entry it came from. */
  lemma LocationConfigRoundTrip(location: Location, config: LocationConfig, gameMap: GameMap)
    ensures LocationFromConfig(ConfigOf(location), location.gameMap) == Ok(location)
    ensures LocationFromConfig(config, gameMap).Ok? ==> ConfigOf(LocationFromConfig(config, gameMap).value) == config
  {
  }

  // ---- the location table of one map, as values ----

  /** The non-fuzzy lookup: the entry stored under the slug of the name, as a
      list of zero or one locations. */
  function ExactMatches(table: map<string, Location>, name: string, slugify: string -> string): (r: seq<Location>)
    ensures |r| <= 1
    ensures |r| == 1 <==> slugify(name) in table
    ensures |r| == 1 ==> r[0] == table[slugify(name)]
  {
    var slug := slugify(name);
    if slug in table then [table[slug]] else []
  }

  /** The fuzzy lookup over the table's keys in insertion order: the locations
      whose similarity score against the requested name is at least 55. */
  function FuzzyMatches(keys: seq<string>, table: map<string, Location>, name: string,
                        ratio: (string, string) -> real): (r: seq<Location>)
    requires forall k :: k in keys ==> k in table
    ensures |r| <= |keys|
    ensures forall l :: l in r ==> 55.0 <= ratio(name, l.name)
    ensures forall l :: l in r ==> exists k :: k in keys && table[k] == l
  {
    if keys == [] then []
    else
      var rest := FuzzyMatches(keys[..|keys| - 1], table, name, ratio);
      var last := table[keys[|keys| - 1]];
      if 55.0 <= ratio(name, last.name) then rest + [last] else rest
  }

  /** Every location of the table that scores at least 55 is suggested. */
  lemma {:induction false} FuzzyMatchesComplete(keys: seq<string>, table: map<string, Location>, name: string,
                                                ratio: (string, string) -> real, k: string)
    requires forall k :: k in keys ==> k in table
    requires k in keys && 55.0 <= ratio(name, table[k].name)
    ensures table[k] in FuzzyMatches(keys, table, name, ratio)
  {
    if keys[|keys| - 1] != k {
      assert k in keys[..|keys| - 1] by {
        var i :| 0 <= i < |keys| && keys[i] == k;
        assert keys[..|keys| - 1][i] == k;
      }
      FuzzyMatchesComplete(keys[..|keys| - 1], table, name, ratio, k);
    }
  }

  /** One axis of `get_crop_at_position`: the window of length `size` centred
      as near to `p` as the image extent allows, each end truncated by `int`. */
  function Window(p: real, size: int, extent: int): (int, int) {
    var half := size as real / 2.0;
    var centre := Trunc(Max(half, Min(p, extent as real - half)));
    (Trunc(centre as real - half), Trunc(centre as real + half))
  }

  /** A window that fits lies inside the image. Its length is the requested
      size when that is even; an odd size loses at most one pixel to the
      truncation. */
  lemma WindowBounds(p: real, size: int, extent: int)
    requires 0 <= size <= extent
    ensures 0 <= Window(p, size, extent).0 <= Window(p, size, extent).1 <= extent
    ensures size % 2 == 0 ==> Window(p, size, extent).1 - Window(p, size, extent).0 == size
    ensures size % 2 == 1 ==> Window(p, size, extent).1 - Window(p, size, extent).0 in {size - 1, size}
  {
    var k := size / 2;
    var half := size as real / 2.0;
    var m := Max(half, Min(p, extent as real - half));
    var c := Trunc(m);
    assert half <= m <= extent as real - half;
    if size % 2 == 0 {
      assert half == k as real;
      assert k <= c <= extent - k;
      assert Trunc(c as real - half) == c - k by { TruncOfInt(c - k); }
      assert Trunc(c as real + half) == c + k by { TruncOfInt(c + k); }
    } else {
      assert half == k as real + 0.5;
      assert k <= c <= extent - k - 1;
      assert Trunc(c as real + half) == c + k;
      if c == k {
        assert Trunc(c as real - half) == 0;
      } else {
        assert Trunc(c as real - half) == c - k - 1;
      }
    }
  }

  /** Away from the edges the window is centred on the truncated position. */
  lemma WindowCentred(p: real, size: int, extent: int)
    requires 0 <= size <= extent && size % 2 == 0
    requires size as real / 2.0 <= p <= extent as real - size as real / 2.0
    ensures Window(p, size, extent).0 == Trunc(p) - size / 2
    ensures Window(p, size, extent).1 == Trunc(p) + size / 2
  {
    var k := size / 2;
    assert size as real / 2.0 == k as real;
    TruncOfInt(Trunc(p) - k);
    TruncOfInt(Trunc(p) + k);
  }

  /** A game's map (`GameMap`): its image, which the renderer redraws, and
      its location table, which `AddLocation` fills. */
  class GameMap {
    const name: string
    const speedMultiplier: real
    const imageFile: string
    const imageWidth: nat
    const imageHeight: nat
    var image: Image
    var locationMap: map<string, Location>
    /** The keys of `locationMap` in insertion order, the order in which
        Python iterates the dict. */
    var slugs: seq<string>

    ghost predicate Valid()
      reads this
    {
      0.0 < speedMultiplier &&
      (forall k :: k in slugs <==> k in locationMap) &&
      (forall i, j :: 0 <= i < j < |slugs| ==> slugs[i] != slugs[j])
    }

    /** `image_size = Position2D(*image.size)`. */
    function ImageSize(): Position2D {
      Position2D(imageWidth as real, imageHeight as real)
    }

    /** `GameMap.__init__` with the image of the given size opened; the
        assertion `speed_multiplier > 0` is the precondition. */
    constructor (name: string, imageFile: string, imageWidth: nat, imageHeight: nat, speedMultiplier: real)
      requires 0.0 < speedMultiplier
      ensures Valid()
      ensures this.name == name && this.imageFile == imageFile && this.speedMultiplier == speedMultiplier
      ensures this.imageWidth == imageWidth && this.imageHeight == imageHeight
      ensures image == Loaded(imageFile, imageWidth, imageHeight)
      ensures locationMap == map[] && slugs == []
    {
      this.name := name;
      this.imageFile := imageFile;
      this.imageWidth := imageWidth;
      this.imageHeight := imageHeight;
      this.speedMultiplier := speedMultiplier;
      image := Loaded(imageFile, imageWidth, imageHeight);
      locationMap := map[];
      slugs := [];
    }

    /** `add_location`: a ValueError, with the table unchanged, when the slug
        of the name is already a key; otherwise that one key is added. */
    method AddLocation(location: Location, slugify: string -> string) returns (r: Result<()>)
      requires Valid()
      modifies this`locationMap, this`slugs
      ensures Valid()
      ensures slugify(location.name) in old(locationMap) ==>
                r == Err(DuplicateLocation(location.name)) &&
                locationMap == old(locationMap) && slugs == old(slugs)
      ensures slugify(location.name) !in old(locationMap) ==>
                r == Ok(()) &&
                locationMap == old(locationMap)[slugify(location.name) := location] &&
                slugs == old(slugs) + [slugify(location.name)]
    {
      var slug := slugify(location.name);
      if slug in locationMap {
        return Err(DuplicateLocation(location.name));
      }
      locationMap := locationMap[slug := location];
      slugs := slugs + [slug];
      return Ok(());
    }

    /** `find_location_by_name`: the exact (slug) lookup, or the fuzzy one. */
    function FindLocationByName(locationName: string, fuzzy: bool, ops: StringOps): (r: seq<Location>)
      reads this
      requires Valid()
      ensures !fuzzy ==> |r| <= 1 && (|r| == 1 <==> ops.slugify(locationName) in locationMap)
      ensures !fuzzy && |r| == 1 ==> r[0] == locationMap[ops.slugify(locationName)]
      ensures fuzzy ==> forall l :: l in r ==> l in locationMap.Values && 55.0 <= ops.ratio(locationName, l.name)
    {
      if !fuzzy then ExactMatches(locationMap, locationName, ops.slugify)
      else FuzzyMatches(slugs, locationMap, locationName, ops.ratio)
    }

    /** `get_crop_at_position`: `crop_size` is unpacked as `(height, width)`.
        A ValueError when the crop is wider or taller than the image;
        otherwise a window on each axis. */
    function GetCropAtPosition(position: Position2D, cropSize: (int, int)): (r: Result<Box>)
      ensures r.Err? <==> cropSize.1 > imageWidth || cropSize.0 > imageHeight
      ensures r.Err? ==> r.error == CropTooLarge(cropSize.0, cropSize.1)
      ensures r.Ok? ==> (r.value.left, r.value.right) == Window(position.x, cropSize.1, imageWidth)
      ensures r.Ok? ==> (r.value.top, r.value.bottom) == Window(position.y, cropSize.0, imageHeight)
    {
      var (height, width) := cropSize;
      if width as real > ImageSize().x || height as real > ImageSize().y then
        Err(CropTooLarge(cropSize.0, cropSize.1))
      else
        var (left, right) := Window(position.x, width, imageWidth);
        var (top, bottom) := Window(position.y, height, imageHeight);
        Ok(Box(left, top, right, bottom))
    }

    /** `get_crop_at_position` as its callers use it: `crop_size` read as
        `(width, height)`, the order in which the zoom-out passes it. */
    function GetCropAtPositionWidthFirst(position: Position2D, cropSize: (int, int)): (r: Result<Box>)
      ensures r.Err? <==> cropSize.0 > imageWidth || cropSize.1 > imageHeight
      ensures r.Err? ==> r.error == CropTooLarge(cropSize.0, cropSize.1)
      ensures r.Ok? ==> (r.value.left, r.value.right) == Window(position.x, cropSize.0, imageWidth)
      ensures r.Ok? ==> (r.value.top, r.value.bottom) == Window(position.y, cropSize.1, imageHeight)
    {
      var (width, height) := cropSize;
      if width as real > ImageSize().x || height as real > ImageSize().y then
        Err(CropTooLarge(cropSize.0, cropSize.1))
      else
        var (left, right) := Window(position.x, width, imageWidth);
        var (top, bottom) := Window(position.y, height, imageHeight);
        Ok(Box(left, top, right, bottom))
    }
  }

  /** For a square crop the two readings of `crop_size` agree. */
  lemma SquareCropEitherWay(m: GameMap, position: Position2D, side: int)
    ensures m.GetCropAtPosition(position, (side, side)) == m.GetCropAtPositionWidthFirst(position, (side, side))
  {
  }

  /** Every crop that fits gives a box inside the image; an even size gives
      exactly that many pixels on its axis. */
  lemma CropInsideImage(m: GameMap, position: Position2D, cropSize: (int, int))
    requires 0 <= cropSize.0 && 0 <= cropSize.1
    requires m.GetCropAtPosition(position, cropSize).Ok?
    ensures var b := m.GetCropAtPosition(position, cropSize).value;
            0 <= b.left <= b.right <= m.imageWidth && 0 <= b.top <= b.bottom <= m.imageHeight
    ensures var b := m.GetCropAtPosition(position, cropSize).value;
            (cropSize.1 % 2 == 0 ==> b.right - b.left == cropSize.1) &&
            (cropSize.0 % 2 == 0 ==> b.bottom - b.top == cropSize.0)
  {
    WindowBounds(position.x, cropSize.1, m.imageWidth);
    WindowBounds(position.y, cropSize.0, m.imageHeight);
  }

  /** After `AddLocation` stores a location, the exact lookup of its name
      finds it, and the exact lookup of a name with another slug is
      unaffected. */
  lemma ExactMatchesAfterAdd(table: map<string, Location>, location: Location, other: string,
                             slugify: string -> string)
    ensures ExactMatches(table[slugify(location.name) := location], location.name, slugify) == [location]
    ensures slugify(other) != slugify(location.name) ==>
              ExactMatches(table[slugify(location.name) := location], other, slugify)
              == ExactMatches(table, other, slugify)
  {
  }

  // ---- kinds of movement ----

  /** The movement types whose lower-cased name equals the lower-cased query,
      in list order. */
  function MatchingTypes(types: seq<MovementType>, query: string, lower: string -> string): (r: seq<MovementType>)
    ensures forall t :: t in r <==> t in types && lower(t.name) == lower(query)
    ensures |r| <= |types|
  {
    if types == [] then []
    else
      var rest := MatchingTypes(types[..|types| - 1], query, lower);
      var last := types[|types| - 1];
      assert types == types[..|types| - 1] + [last];
      if lower(last.name) == lower(query) then rest + [last] else rest
  }

  /** Two distinct entries that both match make the match list longer than one. */
  lemma {:induction false} TwoMatchesAreMany(types: seq<MovementType>, query: string, lower: string -> string, i: nat, j: nat)
    requires i < j < |types|
    requires lower(types[i].name) == lower(query) && lower(types[j].name) == lower(query)
    ensures 2 <= |MatchingTypes(types, query, lower)|
  {
    var init := types[..|types| - 1];
    if j == |types| - 1 {
      assert types[i] == init[i];
      assert types[i] in MatchingTypes(init, query, lower);
    } else {
      assert types[i] == init[i] && types[j] == init[j];
      TwoMatchesAreMany(init, query, lower, i, j);
    }
  }

  /** `get_movement_type`: no match and several matches are both errors. */
  function GetMovementType(types: seq<MovementType>, query: string, lower: string -> string): (r: Result<MovementType>)
    ensures r.Ok? <==> |MatchingTypes(types, query, lower)| == 1
    ensures r.Ok? ==> r.value in types && lower(r.value.name) == lower(query)
    ensures r.Err? ==> r.error == (if forall t :: t in types ==> lower(t.name) != lower(query)
                                   then UnknownMovementType(query) else AmbiguousMovementType(query))
  {
    var matching := MatchingTypes(types, query, lower);
    if |matching| == 0 then
      assert forall t :: t in types ==> lower(t.name) != lower(query);
      Err(UnknownMovementType(query))
    else if |matching| > 1 then
      assert matching[0] in matching;
      Err(AmbiguousMovementType(query))
    else
      assert matching[0] in matching;
      Ok(matching[0])
  }

  /** A unique match is found, and is found whatever the case of the query. */
  lemma GetMovementTypeUnique(types: seq<MovementType>, query: string, lower: string -> string, i: nat)
    requires i < |types| && lower(types[i].name) == lower(query)
    requires forall j :: 0 <= j < |types| && j != i ==> lower(types[j].name) != lower(query)
    ensures GetMovementType(types, query, lower) == Ok(types[i])
  {
    var matching := MatchingTypes(types, query, lower);
    assert types[i] in matching;
    forall t | t in matching ensures t == types[i] {
      var j :| 0 <= j < |types| && types[j] == t;
    }
    if 2 <= |matching| {
      assert matching[0] == types[i] == matching[1];
      SameValuesTwice(types, query, lower, i);
    }
  }

  /** When only index `i` matches, the match list is `[types[i]]`. */
  lemma {:induction false} SameValuesTwice(types: seq<MovementType>, query: string, lower: string -> string, i: nat)
    requires i < |types| && lower(types[i].name) == lower(query)
    requires forall j :: 0 <= j < |types| && j != i ==> lower(types[j].name) != lower(query)
    ensures MatchingTypes(types, query, lower) == [types[i]]
  {
    var init := types[..|types| - 1];
    if i == |types| - 1 {
      NoneMatch(init, query, lower);
    } else {
      SameValuesTwice(init, query, lower, i);
    }
  }

  lemma {:induction false} NoneMatch(types: seq<MovementType>, query: string, lower: string -> string)
    requires forall j :: 0 <= j < |types| ==> lower(types[j].name) != lower(query)
    ensures MatchingTypes(types, query, lower) == []
  {
    if types != [] {
      NoneMatch(types[..|types| - 1], query, lower);
    }
  }

  // ---- a game: resolution across maps and route compilation ----

  /** `[location.name for location in locations]`. */
  function Names(locations: seq<Location>): (r: seq<string>)
    ensures |r| == |locations| && forall i :: 0 <= i < |r| ==> r[i] == locations[i].name
  {
    if locations == [] then [] else Names(locations[..|locations| - 1]) + [locations[|locations| - 1].name]
  }

  /** Every map of the list keeps its table consistent. */
  ghost predicate AllValid(maps: seq<GameMap>)
    reads maps
  {
    forall m :: m in maps ==> m.Valid()
  }

  /** `locations += game_map.find_location_by_name(name, fuzzy)` over the maps in order. */
  ghost function Hits(maps: seq<GameMap>, name: string, fuzzy: bool, ops: StringOps): seq<Location>
    reads maps
    requires AllValid(maps)
  {
    if maps == [] then []
    else Hits(maps[..|maps| - 1], name, fuzzy, ops) + maps[|maps| - 1].FindLocationByName(name, fuzzy, ops)
  }

  /** The map at index `i` holds the slug of `name`. */
  ghost predicate HasExactHit(maps: seq<GameMap>, name: string, ops: StringOps, i: int)
    reads maps
  {
    0 <= i < |maps| && ops.slugify(name) in maps[i].locationMap
  }

  /** The exact hits are one location per map holding the slug: none when no
      map holds it, and exactly `[l]` when only map `i` does. */
  lemma {:induction false} ExactHitsNone(maps: seq<GameMap>, name: string, ops: StringOps)
    requires AllValid(maps)
    requires forall i :: !HasExactHit(maps, name, ops, i)
    ensures Hits(maps, name, false, ops) == []
  {
    if maps != [] {
      var init := maps[..|maps| - 1];
      assert !HasExactHit(maps, name, ops, |maps| - 1);
      forall i | true ensures !HasExactHit(init, name, ops, i) {
        assert !HasExactHit(maps, name, ops, i);
        if 0 <= i < |init| { assert init[i] == maps[i]; }
      }
      ExactHitsNone(init, name, ops);
    }
  }

  lemma {:induction false} ExactHitsOne(maps: seq<GameMap>, name: string, ops: StringOps, i: int)
    requires AllValid(maps) && HasExactHit(maps, name, ops, i)
    requires forall j :: j != i ==> !HasExactHit(maps, name, ops, j)
    ensures Hits(maps, name, false, ops) == [maps[i].locationMap[ops.slugify(name)]]
  {
    var init := maps[..|maps| - 1];
    if i == |maps| - 1 {
      forall j | true ensures !HasExactHit(init, name, ops, j) {
        assert j != i ==> !HasExactHit(maps, name, ops, j);
        if 0 <= j < |init| { assert init[j] == maps[j]; }
      }
      ExactHitsNone(init, name, ops);
    } else {
      assert !HasExactHit(maps, name, ops, |maps| - 1);
      assert init[i] == maps[i];
      forall j | j != i ensures !HasExactHit(init, name, ops, j) {
        assert !HasExactHit(maps, name, ops, j);
        if 0 <= j < |init| { assert init[j] == maps[j]; }
      }
      ExactHitsOne(init, name, ops, i);
    }
  }

  lemma {:induction false} ExactHitsTwo(maps: seq<GameMap>, name: string, ops: StringOps, i: int, j: int)
    requires AllValid(maps) && i < j && HasExactHit(maps, name, ops, i) && HasExactHit(maps, name, ops, j)
    ensures 2 <= |Hits(maps, name, false, ops)|
  {
    var init := maps[..|maps| - 1];
    assert init[i] == maps[i];
    assert HasExactHit(init, name, ops, i);
    if j == |maps| - 1 {
      ExactHitsAtLeastOne(init, name, ops, i);
    } else {
      assert init[j] == maps[j];
      ExactHitsTwo(init, name, ops, i, j);
    }
  }

  lemma {:induction false} ExactHitsAtLeastOne(maps: seq<GameMap>, name: string, ops: StringOps, i: int)
    requires AllValid(maps) && HasExactHit(maps, name, ops, i)
    ensures 1 <= |Hits(maps, name, false, ops)|
  {
    var init := maps[..|maps| - 1];
    if i < |maps| - 1 {
      assert init[i] == maps[i];
      ExactHitsAtLeastOne(init, name, ops, i);
    }
  }

  /** What `Game.find_location_by_name` returns or raises. */
  ghost function ResolveLocation(maps: seq<GameMap>, name: string, ops: StringOps): Result<Location>
    reads maps
    requires AllValid(maps)
  {
    var hits := Hits(maps, name, false, ops);
    if |hits| > 1 then Err(AmbiguousLocation(name))
    else if |hits| == 0 then Err(LocationNotFound(name, Names(Hits(maps, name, true, ops))))
    else Ok(hits[0])
  }

  /** Resolution succeeds exactly when one map holds the slug of the name,
      and then gives that map's entry; several maps make it ambiguous, and
      none makes it a not-found error that lists the fuzzy candidates. */
  lemma ResolveLocationCases(maps: seq<GameMap>, name: string, ops: StringOps)
    requires AllValid(maps)
    ensures (forall i :: !HasExactHit(maps, name, ops, i)) ==>
              ResolveLocation(maps, name, ops) == Err(LocationNotFound(name, Names(Hits(maps, name, true, ops))))
    ensures forall i :: HasExactHit(maps, name, ops, i) && (forall j :: j != i ==> !HasExactHit(maps, name, ops, j)) ==>
              ResolveLocation(maps, name, ops) == Ok(maps[i].locationMap[ops.slugify(name)])
    ensures forall i, j :: i < j && HasExactHit(maps, name, ops, i) && HasExactHit(maps, name, ops, j) ==>
              ResolveLocation(maps, name, ops) == Err(AmbiguousLocation(name))
  {
    if forall i :: !HasExactHit(maps, name, ops, i) {
      ExactHitsNone(maps, name, ops);
    }
    forall i | HasExactHit(maps, name, ops, i) && (forall j :: j != i ==> !HasExactHit(maps, name, ops, j))
      ensures ResolveLocation(maps, name, ops) == Ok(maps[i].locationMap[ops.slugify(name)])
    {
      ExactHitsOne(maps, name, ops, i);
    }
    forall i, j | i < j && HasExactHit(maps, name, ops, i) && HasExactHit(maps, name, ops, j)
      ensures ResolveLocation(maps, name, ops) == Err(AmbiguousLocation(name))
    {
      ExactHitsTwo(maps, name, ops, i, j);
    }
  }

  /** One leg of route compilation, `Movement(start=last, end=next, ...)`,
      for all lines after the first; the location of a line is resolved
      before its kind of movement. */
  ghost function CompileLines(maps: seq<GameMap>, types: seq<MovementType>, rest: seq<string>,
                              last: Location, ops: StringOps): Result<seq<Movement>>
    reads maps
    requires AllValid(maps)
    decreases |rest|
  {
    if rest == [] then Ok([])
    else
      var line := ops.strip(rest[0]);
      if line == "" then CompileLines(maps, types, rest[1..], last, ops)
      else
        match ParseRouteStr(line)
        case Err(e) => Err(e)
        case Ok((movement, locationName)) =>
          match ResolveLocation(maps, locationName, ops)
          case Err(e) => Err(e)
          case Ok(next) =>
            match GetMovementType(types, movement, ops.lower)
            case Err(e) => Err(e)
            case Ok(kind) =>
              match CompileLines(maps, types, rest[1..], next, ops)
              case Err(e) => Err(e)
              case Ok(legs) => Ok([Movement(last, next, kind)] + legs)
  }

  /** One non-blank line of a compiled route: its leg and the compiled rest. */
  lemma CompileLinesStep(maps: seq<GameMap>, types: seq<MovementType>, rest: seq<string>,
                         last: Location, ops: StringOps)
    requires AllValid(maps) && rest != [] && ops.strip(rest[0]) != ""
    requires CompileLines(maps, types, rest, last, ops).Ok?
    ensures ParseRouteStr(ops.strip(rest[0])).Ok?
    ensures var (movement, locationName) := ParseRouteStr(ops.strip(rest[0])).value;
            ResolveLocation(maps, locationName, ops).Ok? &&
            GetMovementType(types, movement, ops.lower).Ok? &&
            var next := ResolveLocation(maps, locationName, ops).value;
            var tail := CompileLines(maps, types, rest[1..], next, ops);
            tail.Ok? &&
            CompileLines(maps, types, rest, last, ops).value
              == [Movement(last, next, GetMovementType(types, movement, ops.lower).value)] + tail.value
  {
  }

  /** A compiled route has one movement per non-blank line, in order; each
      movement starts where the previous one ended (the first at `last`). */
  lemma {:induction false} CompileLinesChain(maps: seq<GameMap>, types: seq<MovementType>, rest: seq<string>,
                                             last: Location, ops: StringOps)
    requires AllValid(maps)
    requires CompileLines(maps, types, rest, last, ops).Ok?
    ensures var legs := CompileLines(maps, types, rest, last, ops).value;
            |legs| == |NonBlank(rest, ops.strip)| &&
            (|legs| > 0 ==> legs[0].start == last) &&
            (forall i :: 0 <= i < |legs| - 1 ==> legs[i + 1].start == legs[i].end)
  {
    if rest != [] {
      if ops.strip(rest[0]) == "" {
        CompileLinesChain(maps, types, rest[1..], last, ops);
      } else {
        CompileLinesStep(maps, types, rest, last, ops);
        var next := ResolveLocation(maps, ParseRouteStr(ops.strip(rest[0])).value.1, ops).value;
        CompileLinesChain(maps, types, rest[1..], next, ops);
      }
    }
  }

  /** Movement `i` ends at the resolved location of non-blank line `i` and
      moves by that line's kind of movement. */
  lemma {:induction false} CompileLinesLegs(maps: seq<GameMap>, types: seq<MovementType>, rest: seq<string>,
                                            last: Location, ops: StringOps, i: nat)
    requires AllValid(maps)
    requires CompileLines(maps, types, rest, last, ops).Ok?
    requires i < |CompileLines(maps, types, rest, last, ops).value|
    ensures i < |NonBlank(rest, ops.strip)|
    ensures var line := NonBlank(rest, ops.strip)[i];
            var leg := CompileLines(maps, types, rest, last, ops).value[i];
            ParseRouteStr(line).Ok? &&
            ResolveLocation(maps, ParseRouteStr(line).value.1, ops) == Ok(leg.end) &&
            GetMovementType(types, ParseRouteStr(line).value.0, ops.lower) == Ok(leg.movementType)
  {
    CompileLinesChain(maps, types, rest, last, ops);
    if ops.strip(rest[0]) == "" {
      CompileLinesLegs(maps, types, rest[1..], last, ops, i);
    } else {
      CompileLinesStep(maps, types, rest, last, ops);
      if 0 < i {
        var next := ResolveLocation(maps, ParseRouteStr(ops.strip(rest[0])).value.1, ops).value;
        CompileLinesLegs(maps, types, rest[1..], next, ops, i - 1);
      }
    }
  }

  /** A line whose location cannot be resolved is reported as such, whatever
      its kind of movement says. */
  lemma LocationBeforeMovementType(maps: seq<GameMap>, types: seq<MovementType>, rest: seq<string>,
                                   last: Location, ops: StringOps)
    requires AllValid(maps) && rest != [] && ops.strip(rest[0]) != ""
    requires ParseRouteStr(ops.strip(rest[0])).Ok?
    requires ResolveLocation(maps, ParseRouteStr(ops.strip(rest[0])).value.1, ops).Err?
    ensures CompileLines(maps, types, rest, last, ops)
            == Err(ResolveLocation(maps, ParseRouteStr(ops.strip(rest[0])).value.1, ops).error)
  {
  }

  /** What `Game.parse_route_file` returns or raises for the lines of a
      route file: `lines[0]` fails on an empty file, a first line that is not
      "start in <location>" fails on `None.group`, and the start location is
      resolved before the remaining lines are compiled. */
  ghost function CompileRoute(maps: seq<GameMap>, types: seq<MovementType>, lines: seq<string>,
                              ops: StringOps): Result<seq<Movement>>
    reads maps
    requires AllValid(maps)
  {
    if lines == [] then Err(EmptyRouteFile)
    else
      match ParseStartLine(ops.strip(lines[0]))
      case Err(e) => Err(e)
      case Ok(locationName) =>
        match ResolveLocation(maps, locationName, ops)
        case Err(e) => Err(e)
        case Ok(start) => CompileLines(maps, types, lines[1..], start, ops)
  }

  /** A non-blank line whose three lookups succeed contributes its leg. */
  lemma CompileLinesNonBlank(maps: seq<GameMap>, types: seq<MovementType>, rest: seq<string>,
                             last: Location, ops: StringOps, next: Location, kind: MovementType)
    requires AllValid(maps) && rest != [] && ops.strip(rest[0]) != ""
    requires ParseRouteStr(ops.strip(rest[0])).Ok?
    requires ResolveLocation(maps, ParseRouteStr(ops.strip(rest[0])).value.1, ops) == Ok(next)
    requires GetMovementType(types, ParseRouteStr(ops.strip(rest[0])).value.0, ops.lower) == Ok(kind)
    ensures CompileLines(maps, types, rest, last, ops)
            == Prepend([Movement(last, next, kind)], CompileLines(maps, types, rest[1..], next, ops))
  {
  }

  /** A blank line contributes nothing. */
  lemma CompileLinesBlank(maps: seq<GameMap>, types: seq<MovementType>, rest: seq<string>,
                          last: Location, ops: StringOps)
    requires AllValid(maps) && rest != [] && ops.strip(rest[0]) == ""
    ensures CompileLines(maps, types, rest, last, ops) == CompileLines(maps, types, rest[1..], last, ops)
  {
  }

  /** A blank line contributes nothing; a line that fails to parse, names
      no single location or no single kind of movement stops compilation with
      that error. */
  lemma CompileLinesHead(maps: seq<GameMap>, types: seq<MovementType>, rest: seq<string>,
                         last: Location, ops: StringOps)
    requires AllValid(maps) && rest != []
    ensures ops.strip(rest[0]) == "" ==>
              CompileLines(maps, types, rest, last, ops) == CompileLines(maps, types, rest[1..], last, ops)
    ensures ops.strip(rest[0]) != "" && ParseRouteStr(ops.strip(rest[0])).Err? ==>
              CompileLines(maps, types, rest, last, ops) == Err(ParseRouteStr(ops.strip(rest[0])).error)
    ensures ops.strip(rest[0]) != "" && ParseRouteStr(ops.strip(rest[0])).Ok? ==>
              var (movement, locationName) := ParseRouteStr(ops.strip(rest[0])).value;
              (ResolveLocation(maps, locationName, ops).Err? ==>
                 CompileLines(maps, types, rest, last, ops) == Err(ResolveLocation(maps, locationName, ops).error)) &&
              (ResolveLocation(maps, locationName, ops).Ok? && GetMovementType(types, movement, ops.lower).Err? ==>
                 CompileLines(maps, types, rest, last, ops) == Err(GetMovementType(types, movement, ops.lower).error))
  {
  }

  /** A compiled route is a chain that starts at the location named by the
      first line, with one movement per later non-blank line. */
  lemma CompileRouteShape(maps: seq<GameMap>, types: seq<MovementType>, lines: seq<string>, ops: StringOps)
    requires AllValid(maps)
    requires CompileRoute(maps, types, lines, ops).Ok?
    ensures lines != [] && ParseStartLine(ops.strip(lines[0])).Ok?
    ensures ResolveLocation(maps, ParseStartLine(ops.strip(lines[0])).value, ops).Ok?
    ensures var legs := CompileRoute(maps, types, lines, ops).value;
            |legs| == |NonBlank(lines[1..], ops.strip)| &&
            (|legs| > 0 ==> legs[0].start == ResolveLocation(maps, ParseStartLine(ops.strip(lines[0])).value, ops).value) &&
            (forall i :: 0 <= i < |legs| - 1 ==> legs[i + 1].start == legs[i].end)
  {
    var start := ResolveLocation(maps, ParseStartLine(ops.strip(lines[0])).value, ops).value;
    CompileLinesChain(maps, types, lines[1..], start, ops);
  }

  /** A game: its kinds of movement and its maps, as the loader sets them. */
  class Game {
    const name: string
    const defaultMap: string
    const movementTypes: seq<MovementType>
    const gameMaps: seq<GameMap>

    /** Every map is consistent, and every location stored in a map belongs
        to that map (the loader builds each location with its own map). */
    ghost predicate Valid()
      reads this, gameMaps
    {
      AllValid(gameMaps) &&
      forall m, l :: m in gameMaps && l in m.locationMap.Values ==> l.gameMap == m
    }

    /** Drawing on the maps' images keeps the game valid: validity depends
        only on the location tables. */
    twostate lemma ImagesKeepValid()
      requires old(Valid())
      requires forall m :: m in gameMaps ==> unchanged(m`locationMap, m`slugs)
      ensures Valid()
    {
      forall m | m in gameMaps ensures m.Valid() {
        assert old(m.Valid());
      }
    }

    /** `Game.__init__` followed by the assignments of `load_from_dict`. */
    constructor (name: string, defaultMap: string, movementTypes: seq<MovementType>, gameMaps: seq<GameMap>)
      ensures this.name == name && this.defaultMap == defaultMap
      ensures this.movementTypes == movementTypes && this.gameMaps == gameMaps
    {
      this.name := name;
      this.defaultMap := defaultMap;
      this.movementTypes := movementTypes;
      this.gameMaps := gameMaps;
    }

    /** `find_location_by_name`: the exact hits over all maps, then, only when
        there are none, the fuzzy hits for the error message. */
    method FindLocationByName(locationName: string, ops: StringOps) returns (r: Result<Location>)
      requires Valid()
      ensures r == ResolveLocation(gameMaps, locationName, ops)
      ensures r.Ok? ==> r.value.gameMap in gameMaps
    {
      var locations: seq<Location> := [];
      var i := 0;
      while i < |gameMaps|
        invariant 0 <= i <= |gameMaps|
        invariant locations == Hits(gameMaps[..i], locationName, false, ops)
      {
        assert gameMaps[..i + 1][..i] == gameMaps[..i];
        locations := locations + gameMaps[i].FindLocationByName(locationName, false, ops);
        i := i + 1;
      }
      assert gameMaps[..i] == gameMaps;
      if |locations| > 1 {
        return Err(AmbiguousLocation(locationName));
      }
      if |locations| == 0 {
        var fuzzyLocations: seq<Location> := [];
        var j := 0;
        while j < |gameMaps|
          invariant 0 <= j <= |gameMaps|
          invariant fuzzyLocations == Hits(gameMaps[..j], locationName, true, ops)
        {
          assert gameMaps[..j + 1][..j] == gameMaps[..j];
          fuzzyLocations := fuzzyLocations + gameMaps[j].FindLocationByName(locationName, true, ops);
          j := j + 1;
        }
        assert gameMaps[..j] == gameMaps;
        return Err(LocationNotFound(locationName, Names(fuzzyLocations)));
      }
      HitsBelong(gameMaps, locationName, ops);
      return Ok(locations[0]);
    }

    /** The exact hits are entries of the maps' tables, so they are on one of
        the game's maps. */
    lemma HitsBelong(maps: seq<GameMap>, name: string, ops: StringOps)
      requires Valid() && forall m :: m in maps ==> m in gameMaps
      ensures forall l :: l in Hits(maps, name, false, ops) ==> l.gameMap in gameMaps
    {
      if maps != [] {
        HitsBelong(maps[..|maps| - 1], name, ops);
        var m := maps[|maps| - 1];
        assert m in gameMaps;
        forall l | l in m.FindLocationByName(name, false, ops) ensures l.gameMap in gameMaps {
          assert l in m.locationMap.Values;
        }
      }
    }
  
    /** `parse_route_file` on the lines of the route file. */
    method ParseRouteFile(lines: seq<string>, ops: StringOps) returns (r: Result<seq<Movement>>)
      requires Valid()
      ensures r == CompileRoute(gameMaps, movementTypes, lines, ops)
      ensures r.Ok? ==> forall leg :: leg in r.value ==> leg.start.gameMap in gameMaps && leg.end.gameMap in gameMaps
    {
      if lines == [] {
        return Err(EmptyRouteFile);
      }
      var startMatch := ParseStartLine(ops.strip(lines[0]));
      if startMatch.Err? {
        return Err(startMatch.error);
      }
      var startLocation := FindLocationByName(startMatch.value, ops);
      if startLocation.Err? {
        return Err(startLocation.error);
      }
      assert CompileRoute(gameMaps, movementTypes, lines, ops)
             == CompileLines(gameMaps, movementTypes, lines[1..], startLocation.value, ops);
      r := CompileLegs(lines, startLocation.value, ops);
    }

    /** The loop of `parse_route_file` over the lines after the first, from
        the start location on: each non-blank line becomes the movement from
        the previous location to the one it names. */
    method CompileLegs(lines: seq<string>, start: Location, ops: StringOps) returns (r: Result<seq<Movement>>)
      requires Valid() && 1 <= |lines| && start.gameMap in gameMaps
      ensures r == CompileLines(gameMaps, movementTypes, lines[1..], start, ops)
      ensures r.Ok? ==> forall leg :: leg in r.value ==> leg.start.gameMap in gameMaps && leg.end.gameMap in gameMaps
    {
      var movements: seq<Movement> := [];
      var lastLocation := start;
      ghost var route := CompileLines(gameMaps, movementTypes, lines[1..], lastLocation, ops);
      PrependEmpty(route);
      var i := 1;
      while i < |lines|
        invariant 1 <= i <= |lines|
        invariant route == Prepend(movements, CompileLines(gameMaps, movementTypes, lines[i..], lastLocation, ops))
        invariant lastLocation.gameMap in gameMaps
        invariant forall leg :: leg in movements ==> leg.start.gameMap in gameMaps && leg.end.gameMap in gameMaps
      {
        ghost var rest := lines[i..];
        assert rest[0] == lines[i] && rest[1..] == lines[i + 1..];
        var next := CompileLine(rest, ops.strip(lines[i]), lastLocation, ops);
        if next.Err? {
          return Err(next.error);
        }
        if next.value.Some? {
          var leg := next.value.value;
          PrependTwice(movements, leg, CompileLines(gameMaps, movementTypes, lines[i + 1..], leg.end, ops));
          assert forall l :: l in movements + [leg] ==> l in movements || l == leg;
          movements := movements + [leg];
          lastLocation := leg.end;
        } else {
          assert CompileLines(gameMaps, movementTypes, rest, lastLocation, ops)
              == CompileLines(gameMaps, movementTypes, lines[i + 1..], lastLocation, ops);
        }
        i := i + 1;
      }
      assert lines[i..] == [];
      assert movements + [] == movements;
      return Ok(movements);
    }

    /** The body of that loop for one line: a blank line is skipped (`None`),
        any other is compiled into its leg. */
    method CompileLine(ghost rest: seq<string>, line: string, last: Location, ops: StringOps)
      returns (r: Result<Option<Movement>>)
      requires Valid() && rest != [] && ops.strip(rest[0]) == line
      ensures r.Err? ==> CompileLines(gameMaps, movementTypes, rest, last, ops) == Err(r.error)
      ensures r == Ok(None) <==> line == ""
      ensures r == Ok(None) ==> CompileLines(gameMaps, movementTypes, rest, last, ops)
                                == CompileLines(gameMaps, movementTypes, rest[1..], last, ops)
      ensures r.Ok? && r.value.Some? ==>
                r.value.value.start == last && r.value.value.end.gameMap in gameMaps &&
                CompileLines(gameMaps, movementTypes, rest, last, ops)
                == Prepend([r.value.value], CompileLines(gameMaps, movementTypes, rest[1..], r.value.value.end, ops))
    {
      if line == "" {
        CompileLinesBlank(gameMaps, movementTypes, rest, last, ops);
        return Ok(None);
      }
      var leg := CompileLeg(rest, line, last, ops);
      if leg.Err? {
        return Err(leg.error);
      }
      return Ok(Some(leg.value));
    }

    /** The body of that loop for one non-blank line: parse it, resolve its
        location, then its kind of movement; the first failure is the
        route's error, and otherwise the leg is the route's next movement. */
    method CompileLeg(ghost rest: seq<string>, line: string, last: Location, ops: StringOps) returns (r: Result<Movement>)
      requires Valid() && rest != [] && ops.strip(rest[0]) == line && line != ""
      ensures r.Err? ==> CompileLines(gameMaps, movementTypes, rest, last, ops) == Err(r.error)
      ensures r.Ok? ==> r.value.start == last && r.value.end.gameMap in gameMaps
      ensures r.Ok? ==> CompileLines(gameMaps, movementTypes, rest, last, ops)
                        == Prepend([r.value], CompileLines(gameMaps, movementTypes, rest[1..], r.value.end, ops))
    {
      CompileLinesHead(gameMaps, movementTypes, rest, last, ops);
      var parsed := ParseRouteStr(line);
      if parsed.Err? {
        return Err(parsed.error);
      }
      var (movement, locationName) := parsed.value;
      var nextLocation := FindLocationByName(locationName, ops);
      if nextLocation.Err? {
        return Err(nextLocation.error);
      }
      var movementType := GetMovementType(movementTypes, movement, ops.lower);
      if movementType.Err? {
        return Err(movementType.error);
      }
      var leg := Movement(last, nextLocation.value, movementType.value);
      CompileLinesNonBlank(gameMaps, movementTypes, rest, last, ops, leg.end, leg.movementType);
      return Ok(leg);
    }
  }
}
