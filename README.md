# Wanderer route animation engine, modelled in Dafny

Wanderer turns a route script into numbered animation frames over game map
images. The script has a line `start in <location>` followed by lines such as
`walk to <location>`. This project models the deterministic core beneath the
image, JSON and ffmpeg calls, and proves properties of it:

- `Position2D` vector arithmetic over exact reals (module `Vectors`). The one
  model covers both `wanderer/position2d.py` and the copy in `src/__init__.py`.
- `lerp` and `points_between`, the sample points one movement walks through
  (module `Interpolation`).
- The game model of `wanderer/game.py` (module `Games`):
  - a map's slug-keyed location table, which refuses duplicates;
  - exact-then-fuzzy location resolution across maps;
  - case-insensitive movement-type lookup;
  - the clamped crop window;
  - compiling a route file into a chain of movements.
- The frame sequencer of `wanderer/renderer.py` (module `Rendering`). A walk is
  saved for each same-map movement, a cross-fade for each movement that changes
  maps, and one zoom-out at the end. A single frame counter runs through every
  phase. The trail is baked into the map image once per walk.
- The route-line formats `<movement> to <location>` and `start in <location>`,
  read as Python's `re.match` reads them (module `RouteSyntax`). The four
  identical copies of `parse_route_str` share one model.
- The first prototype `main.py` (module `MainScript`): the location-line parser,
  the location-file loader and the route compiler. The compiler never advances
  `last_location`.
- The constructor checks and `parse_location` of the older packages
  `src/__init__.py` and `wanderer/__init__.py` (module `Packages`).
- The conversions the core uses (module `Numbers`): `int()` of a float
  truncates, `math.ceil` rounds up, `int("0042")` reads digits, and
  `f"{n:06}"` writes them.

Exceptions (ValueError, IndexError, KeyError, AttributeError, ZeroDivisionError
and AssertionError) are `Err` values of a `Result` (module `Results`). A failing
`assert` in a helper is that helper's precondition. Where the renderer reaches
such an assertion with values nobody checked, the render stops with an `Err`
and the frames already saved stay saved.

The library calls `slugify`, `fuzz.ratio`, `str.lower` and `str.strip` are
uninterpreted function fields of `Foreign.StringOps`. The model holds for
every choice of them. `math.sqrt` is a parameter `sqrt` that is only required
to be a non-negative square root (`Vectors.IsSqrt`). `math.acos` is a parameter
that returns `None` where Python raises.

Images are terms that record how they were made (`Images.Image`): opened,
line drawn, arrow pasted, cropped, blended or resized. Nothing in the engine
depends on pixels. The output directory is the renderer's field `written`,
which holds the frames in the order they are saved.

A few behaviours of the code that the model keeps as they are:
- A kind of movement with speed 0 trips the assertion `speed > 0` of
  `points_between`, and the render stops with `NonPositiveSpeed`.
- The cross-fade has `int(frame_rate / 2)` frames.
- The frame ceiling is the assertion `0 <= index <= 100000` on the number
  being saved, so frame 100000 itself is still written.
- The fuzzy lookup keeps the locations that score at least 55.

## Model

| member | source | states |
|---|---|---|
| Vectors.SubDoctest | wanderer/position2d.py:18-26 | (10,5) - (3,2) = (7,3), the doctest of `__sub__` |
| Vectors.AddSubInverse | wanderer/position2d.py:18-34 | component-wise `+` and `-` undo each other: (a - b) + b == a and (a + b) - b == a |
| Vectors.AddLaws | wanderer/position2d.py:28-37 | `+` is commutative and associative, and `*` distributes over it and composes: (v*s)*t == v*(s*t) |
| Vectors.MulDivInverse | wanderer/position2d.py:36-45 | for s != 0, (v * s) / s == v and (v / s) * s == v |
| Vectors.DotLaws | wanderer/position2d.py:47-53 | `dot_product` is symmetric, and dot(v, v) is x² + y² |
| Vectors.MagnitudeLaws | wanderer/position2d.py:69-74 | `magnitude` is >= 0, its square is x² + y², and it is 0 exactly for the zero vector |
| Vectors.MagnitudeOfMul | wanderer/position2d.py:69-74 | scaling a vector by s scales its magnitude by abs(s) |
| Vectors.MagnitudeOfSubSymmetric | wanderer/position2d.py:69-74 | the length of a - b equals the length of b - a |
| Vectors.UnitLaws | wanderer/position2d.py:76-77 | the unit of a non-zero vector has magnitude 1 and, scaled by the magnitude, gives the vector back |
| Vectors.UnitOfZeroDividesByZero | wanderer/position2d.py:76-77 | the zero vector has magnitude 0, so `unit` divides by zero |
| Vectors.CrossProductDoctests | wanderer/position2d.py:55-67 | (5,0)×(0,4) = 1 and (0,3)×(4,0) = -1, with non-zero divisors; the same doctests are in src/__init__.py:58-70 |
| Vectors.CrossProductAntisymmetric | wanderer/position2d.py:55-67 | swapping the operands negates `cross_product_scalar` |
| Vectors.AngleBetweenZeroGuard | wanderer/position2d.py:79-93 | `angle_between` is 0 when either vector is the zero vector, whatever `acos` does; the same guard is at src/__init__.py:87-89 |
| Vectors.CauchySchwarz | wanderer/position2d.py:87-91 | the absolute value of the dot product never exceeds the product of the magnitudes |
| Vectors.AcosArgumentInRange | wanderer/position2d.py:87-91 | for two non-zero vectors the product of the magnitudes is positive and the argument passed to `acos` lies in [-1, 1] |
| Vectors.AngleBetweenDefined | wanderer/position2d.py:87-93 | for two non-zero vectors and an `acos` defined on all of [-1, 1], the `except ValueError` branch is never taken: the angle is `acos` of the dot product over the product of the magnitudes |
| Interpolation.Lerp | wanderer/utils.py:7-10 | requires 0 <= delta <= 1; each coordinate of the result lies between the two ends |
| Interpolation.LerpEnds | wanderer/utils.py:7-10 | lerp(a, b, 0) == a and lerp(a, b, 1) == b |
| Interpolation.PointsBetween | wanderer/utils.py:13-26 | requires speed > 0; the list is non-empty, starts at `start` and ends at `end` |
| Interpolation.PointsBetweenSame | wanderer/utils.py:17-18 | equal ends give exactly [start] |
| Interpolation.MovesPositive | wanderer/utils.py:19-21 | distinct ends are a positive distance apart and need at least one move |
| Interpolation.SampleDistance | wanderer/utils.py:23 | sample i lies at distance i·speed from the start |
| Interpolation.SampleBeforeEnd | wanderer/utils.py:23-24 | for i < moves, i·speed is below the whole distance and sample i is not `end` |
| Interpolation.PointsBetweenShape | wanderer/utils.py:19-26 | for distinct ends the list has moves + 1 points (the test at line 24 never holds over exact reals), and point i < moves is start + unit·i·speed |
| Interpolation.PointsBetweenDistances | wanderer/utils.py:19-26 | point i lies at distance i·speed from the start (the full distance for the appended end), never beyond the end |
| Interpolation.DistancesIncrease | wanderer/utils.py:23-26 | the distance from the start strictly increases along the list |
| Interpolation.PointsBetweenDistinct | wanderer/utils.py:13-26 | no point repeats, so `point == points[-1]` holds only at the last point |
| Numbers.Trunc | wanderer/game.py:320-327 | `int()` of a float truncates toward zero: it is the integer at most 1 from r on the side of 0, and non-negative for r >= 0 |
| Numbers.Ceil | wanderer/utils.py:21 | `math.ceil(r)` is the least integer >= r |
| Numbers.ValueOfDecimal | main.py:116-117 | `int(str(n)) == n`: reading the decimal text of n gives n |
| Numbers.ZeroPaddedRoundTrip | wanderer/renderer.py:211 | for n < 10^w, `f"{n:0w}"` has exactly w digits and reads back as n |
| RouteSyntax.DropFinalNewline | wanderer/game.py:182 | `$` stops at the end of the text or before one final newline |
| RouteSyntax.FirstSplit | wanderer/game.py:182 | finds the leftmost " to " with text on both sides at or after `from`, or reports that none exists |
| RouteSyntax.ParseRouteStr | wanderer/game.py:176-185 | succeeds iff the line (less one final newline) has no newline and a " to " at index >= 1 with text after it; then movement + " to " + location is the line, both parts are non-empty, and no shorter movement splits it; otherwise the ValueError. The copies at main.py:107-111, src/__init__.py:233-237 and wanderer/__init__.py:97-101 are the same |
| RouteSyntax.RouteLineRoundTrip | wanderer/__init__.py:97-101 | a line written as movement + " to " + location parses back into those two parts for any location and any movement without a space |
| RouteSyntax.ParseStartLine | wanderer/game.py:135-136 | the first line matches `start in (.+)$` exactly when it has that prefix and a non-empty newline-free rest, which is then the location; otherwise the failure on `None.group` |
| RouteSyntax.StartLineRoundTrip | wanderer/game.py:135-136 | "start in " + location parses back as the location |
| RouteSyntax.NonBlank | wanderer/game.py:141-144 | the lines that are not blank once stripped, none of them empty, at most as many as the lines |
| Games.NewMovementType | wanderer/game.py:51-55 | the assertion `pixels_per_second >= 0` holds iff the kind of movement is built, with the given fields |
| Games.LocationFromConfig | wanderer/game.py:32-43 | a config without "name", "x" or "y" is the KeyError for the first of them it lacks, looked up in that order; a config with all three succeeds, on the loading map |
| Games.LocationConfigRoundTrip | wanderer/game.py:32-43 | a location written out as a config of its name, x and y loads back as itself on its own map, and a config that loads is exactly the config of the location it gives |
| Games.ExactMatches | wanderer/game.py:292-294 | the non-fuzzy lookup is [table[slug(name)]] when the slug is a key and [] otherwise |
| Games.FuzzyMatches | wanderer/game.py:296-301 | every location the fuzzy lookup returns is in the table and scores at least 55 |
| Games.FuzzyMatchesComplete | wanderer/game.py:296-301 | every location of the table that scores at least 55 is returned |
| Games.WindowBounds | wanderer/game.py:320-327 | a crop axis that fits lies inside the image; an even size gives exactly that many pixels and an odd one loses at most one |
| Games.WindowCentred | wanderer/game.py:320-327 | away from the edges, an even window is centred on the truncated position |
| Games.GameMap.constructor | wanderer/game.py:250-266 | the assertion `speed_multiplier > 0` as precondition; the image is the opened file and the table is empty |
| Games.GameMap.AddLocation | wanderer/game.py:271-281 | an existing slug is a ValueError that leaves the table unchanged; otherwise exactly that one slug is added, after the others |
| Games.GameMap.FindLocationByName | wanderer/game.py:283-301 | non-fuzzy: at most one hit, present exactly when the slug is a key, and then the stored entry; fuzzy: stored entries scoring at least 55 |
| Games.GameMap.GetCropAtPosition | wanderer/game.py:310-327 | `crop_size` read as (height, width): a ValueError iff width exceeds the image width or height exceeds its height; otherwise each side is the clamped window of its axis |
| Games.GameMap.GetCropAtPositionWidthFirst | wanderer/game.py:310-327 | the same crop with `crop_size` read as (width, height), the order the zoom-out passes it |
| Games.SquareCropEitherWay | wanderer/game.py:313 | for square crops, such as the 512 × 512 ones of the walk and the fade, both readings agree |
| Games.CropInsideImage | wanderer/game.py:313-327 | every crop that fits lies inside the image, with exact extent on an even axis |
| Games.ExactMatchesAfterAdd | wanderer/game.py:276-294 | after a location is stored, its name finds it, and names with other slugs find what they found before |
| Games.MatchingTypes | wanderer/game.py:162-166 | the kinds of movement whose lower-cased name equals the lower-cased query, and only those |
| Games.TwoMatchesAreMany | wanderer/game.py:170-173 | two matching entries make the match list longer than one |
| Games.GetMovementType | wanderer/game.py:156-174 | it succeeds iff exactly one kind of movement matches, with a matching member of the list; no match and several matches are the two errors |
| Games.GetMovementTypeUnique | wanderer/game.py:162-174 | when only entry i matches, whatever the query's case, the result is entry i |
| Games.ResolveLocationCases | wanderer/game.py:100-121 | resolution succeeds exactly when one map holds the name's slug and gives that entry; two such maps make it ambiguous; none makes it not-found, listing the fuzzy candidates |
| Games.ExactHitsOne | wanderer/game.py:100-102 | when only map i holds the slug, the collected exact hits are that map's entry alone |
| Games.ExactHitsTwo | wanderer/game.py:100-105 | two maps holding the slug give more than one exact hit |
| Games.Game.constructor | wanderer/game.py:83-88 | the game with the kinds of movement and maps its loader assigns |
| Games.Game.FindLocationByName | wanderer/game.py:93-121 | the loop over the maps returns exactly what the resolution specifies, and a found location is on one of the game's maps |
| Games.Game.HitsBelong | wanderer/game.py:100-102 | every exact hit is on one of the game's maps |
| Games.CompileLinesStep | wanderer/game.py:141-153 | in a compiled route a non-blank line parses, resolves and finds its kind, and contributes the movement from the last location to the one it names |
| Games.CompileLinesChain | wanderer/game.py:139-154 | a compiled route has one movement per non-blank line; the first starts at the start location and each later one starts where the previous one ended |
| Games.CompileLinesLegs | wanderer/game.py:141-153 | movement i ends at the location resolved for non-blank line i and moves by that line's kind of movement |
| Games.LocationBeforeMovementType | wanderer/game.py:145-147 | a line whose location does not resolve fails with that error, whatever its kind of movement is |
| Games.CompileLinesHead | wanderer/game.py:141-147 | a blank line is skipped; a line that does not parse, resolve or find its kind stops compilation with that error |
| Games.CompileLinesNonBlank | wanderer/game.py:145-153 | a line whose three lookups succeed puts its movement in front of the rest |
| Games.CompileLinesBlank | wanderer/game.py:142-144 | a blank line contributes nothing |
| Games.CompileRouteShape | wanderer/game.py:135-154 | a compiled route has a valid start line whose location resolves, and is a chain from that location with one movement per later non-blank line |
| Games.Game.ParseRouteFile | wanderer/game.py:123-154 | the method returns exactly the specified compilation: an empty file, a bad start line and an unknown start fail, and otherwise the lines after the first are compiled; every movement is on the game's maps |
| Games.Game.CompileLegs | wanderer/game.py:139-154 | the loop over the lines after the first returns exactly the specified compilation from the start location |
| Games.Game.CompileLine | wanderer/game.py:141-153 | one pass of that loop: a blank line is skipped and any other line's movement is put in front of the rest |
| Games.Game.CompileLeg | wanderer/game.py:145-153 | a non-blank line is parsed, then its location is resolved, then its kind of movement; the first failure is the route's error, otherwise the movement starts at the last location |
| Packages.NewMovementType | src/__init__.py:129-133 | the package's assertion `pixels_per_second > 0` holds iff the kind of movement is built |
| Packages.NewGameMap | src/__init__.py:106-113 | the assertion `speed_multiplier > 0` holds iff the map is built |
| Packages.MovementTypeChecksDiffer | src/__init__.py:129-133 | every kind of movement the package accepts is also accepted by wanderer/game.py:52 with the same value, but a speed of 0 is accepted only there |
| Packages.ParseLocation | wanderer/__init__.py:184-189 | a config without "name", "x" or "y" is the KeyError for the first of them it lacks; otherwise the marker is on the given map; the copy at src/__init__.py:320-325 is the same |
| Packages.ParseLocationAgrees | wanderer/__init__.py:184-189 | `parse_location` fails exactly when `Location.load_from_config` (wanderer/game.py:32-43) fails, with the same KeyError, and otherwise gives the same name and position |
| MainScript.DigitRunLaws | main.py:115 | the digit run covers digits only and stops at a non-digit or the end |
| MainScript.SpaceRunLaws | main.py:115 | the space run covers spaces only and stops at a non-space or the end |
| MainScript.DigitRunIs | main.py:115 | a run of n digits followed by a non-digit or the end has length n |
| MainScript.ParseTailSound | main.py:115 | whatever the tail matcher accepts is the text of a well-formed tail: " " digits "x" spaces digits "y" spaces |
| MainScript.ParseTailComplete | main.py:115 | the text of every well-formed tail is accepted and parsed back as that tail |
| MainScript.FirstTailLaws | main.py:115 | the lazy name search finds a length after which the tail matches, and no shorter one; or it reports that none exists |
| MainScript.ParseLocation | main.py:114-119 | a line that does not match is an error; otherwise x and y are non-negative and the name is non-empty |
| MainScript.ParseLocationMatches | main.py:114-119 | the line parses iff some name length lets the pattern match; the name is then the shortest such prefix, and x and y are the values of the digit runs of the tail after it |
| MainScript.LocationLineRoundTrip | main.py:114-119 | writing a location as "<name> <x>x <y>y" and parsing it back gives that location, for any non-empty name without digits or newlines |
| MainScript.LoadLinesHead | main.py:59-66 | one line of the location file: skipped when blank, an error when it does not parse or its name is taken, otherwise added under its name |
| MainScript.ParseLocationFile | main.py:53-67 | the loop over the lines returns exactly the specified table or error |
| MainScript.LoadLinesKeeps | main.py:63-66 | loading never drops or changes an entry already in the table |
| MainScript.LoadLinesEntry | main.py:59-66 | in a loaded table every non-blank line parsed, its name was new, and the table maps that name to its location |
| MainScript.LoadLinesDistinct | main.py:64-65 | the names of two non-blank lines of a loaded file differ |
| MainScript.LoadLinesOnly | main.py:59-66 | every key of a loaded table was there before or is the name of a non-blank line |
| MainScript.DuplicateNameRejected | main.py:64-65 | a name on two non-blank lines of a location file makes loading fail |
| MainScript.RouteLegsHead | main.py:92-103 | one line after the first: skipped when blank, an error when it does not parse or names an unknown location, otherwise a movement from the start |
| MainScript.ParseRouteFile | main.py:77-104 | the method returns exactly the specified route: an empty file, a bad start line and an unknown start location fail, and otherwise the lines after the first are compiled |
| MainScript.RouteFrom | main.py:90-104 | the loop over the lines after the first returns exactly the specified movements |
| MainScript.RouteLine | main.py:92-103 | one pass of that loop: a blank line is skipped, and any other line's movement, from the start location, is put in front of the rest |
| MainScript.RouteLegsCount | main.py:92-103 | one movement per non-blank line after the first |
| MainScript.RouteLegAt | main.py:92-103 | movement i starts at the start location and ends at the table entry that non-blank line i names, with the raw movement text as its kind |
| MainScript.RouteStartsEverywhere | main.py:91-103 | `last_location` is never advanced: every movement of a compiled route starts at the start location |
| MainScript.UnknownLocationRejected | main.py:97-98 | a line naming a location missing from the table fails with that name |
| Rendering.OutputFilename | wanderer/renderer.py:209-211 | requires 0 <= index <= 100000; the name is 14 characters plus the extension: "output_", six digits that read back as the index, "." and the extension |
| Rendering.OutputFilenameInjective | wanderer/renderer.py:209-211 | distinct frame numbers give distinct file names |
| Rendering.RunSteps | wanderer/renderer.py:102-118 | a phase saves at most one frame per step it reaches |
| Rendering.RunFramesStep | wanderer/renderer.py:102-118 | a step saves nothing, or saves the next frame under the current number with its picture |
| Rendering.RunNumbering | wanderer/renderer.py:104-106 | the frames of a phase are numbered on from its first number, each within the filename assertion and in one format |
| Rendering.RunPictures | wanderer/renderer.py:115-118 | frame i of a phase shows the picture of step i |
| Rendering.RunCount | wanderer/renderer.py:106-120 | a completed phase saves one frame per step and hands on its first number plus its step count |
| Rendering.RunError | wanderer/renderer.py:102-118 | a phase stops only at a number past the ceiling or at a step whose picture fails, with that step's error |
| Rendering.RunCeiling | wanderer/renderer.py:209-210 | a number past the ceiling stops the phase before its picture is made |
| Rendering.RunAdvance | wanderer/renderer.py:104-118 | a step within the ceiling saves its picture under the current number, or stops with the picture's error |
| Rendering.RunStopped | wanderer/renderer.py:102-118 | once a phase has stopped, later steps change nothing |
| Rendering.PicturesAlong | wanderer/renderer.py:89 | one picture per point, in the order of the points |
| Rendering.WalkSpeedPositive | wanderer/renderer.py:80-86 | with a positive multiplier and frame rate, the walk speed is positive iff the kind of movement's speed is |
| Rendering.WalkPoints | wanderer/renderer.py:84-86 | the walk visits at least one point |
| Rendering.WalkPictureAt | wanderer/renderer.py:90-118 | the walk's frame at point k is the trail to that point on the base image, with the arrow, cropped around the point |
| Rendering.WalkPictures | wanderer/renderer.py:89-118 | one frame per point of the walk |
| Rendering.WalkTrail | wanderer/renderer.py:107-109 | the map image changes only once the last point is reached, and then to the base image with the whole trail drawn and no arrow |
| Rendering.FadeCountAtFrameRate | wanderer/renderer.py:141 | at 24 frames per second a cross-fade has 12 frames |
| Rendering.FadePictures | wanderer/renderer.py:142-143 | a cross-fade of `frame_count` frames |
| Rendering.FadePictureAt | wanderer/renderer.py:142-143 | fade frame k blends the two crops at k / frame_count |
| Rendering.FadeFactors | wanderer/renderer.py:142-143 | the blend factors start at 0, strictly increase and stay below 1 |
| Rendering.Middle | wanderer/renderer.py:169 | the zoom-out's target is `image_size / 2` |
| Rendering.ZoomPoints | wanderer/renderer.py:162-170 | the zoom-out visits at least one point |
| Rendering.ZoomPictureAt | wanderer/renderer.py:173-187 | the zoom-out's frame at point k is the crop for that point's ratio, resized to 512 × 512 |
| Rendering.ZoomPictures | wanderer/renderer.py:173-187 | one frame per point of the zoom-out |
| Rendering.ZoomRatioInRange | wanderer/renderer.py:181-182 | at every point the zoom ratio is defined and lies in [0, 1], so the assertion of `lerp` holds; it is 1 at the last point |
| Rendering.ZoomRatioOfSameEnds | wanderer/renderer.py:181 | a zoom-out that starts at the middle of its map divides by zero |
| Rendering.ZoomEndCropAsWritten | wanderer/renderer.py:182-185 | as written, on a map that is not square the last frame asks for the whole image with its sides swapped, which is refused |
| Rendering.ZoomCropAsWritten | wanderer/renderer.py:182-185 | as written, on a map at least 512 pixels each way, the crop at a ratio is refused exactly when the interpolated width reaches past the image height or the interpolated height past the image width |
| Rendering.ZoomCropAsWrittenExample | wanderer/renderer.py:182-185 | on a 1024 × 768 map, as written, the crop at ratio 1/4 is 576 wide where the (width, height) reading gives 640, and the crop at ratio 3/4 is refused where that reading succeeds |
| Rendering.ZoomCropFits | wanderer/renderer.py:182-185 | read as (width, height), every zoom crop fits a map at least 512 pixels each way and is at least 512 each way |
| Rendering.ZoomStepsSucceed | wanderer/renderer.py:173-187 | on such a map, from a point that is not the middle, every zoom-out step makes its picture |
| Rendering.NumberedAppend | wanderer/renderer.py:30-58 | frames numbered 0, 1, … followed by a phase numbered on from their count stay numbered 0, 1, … |
| Rendering.PhaseNumbered | wanderer/renderer.py:30-58 | a phase run on from the frames saved so far keeps the output numbered 0, 1, … without gaps or repeats |
| Rendering.PhaseCount | wanderer/renderer.py:30-58 | a completed phase hands on the number of frames saved in all |
| Rendering.RunFrameAt | wanderer/renderer.py:104-106 | frame j of a phase is numbered first + j, within the ceiling, in the phase's format |
| Rendering.FrameFilesDistinct | wanderer/renderer.py:209-211 | no two frames of a numbered output are saved to the same file |
| Rendering.GameRenderer.constructor | wanderer/renderer.py:15-16 | a renderer of the game, with no frames saved |
| Rendering.GameRenderer.SaveFrame | wanderer/renderer.py:102-118 | one step of a phase: saves the picture under the current number, or stops with the picture's error |
| Rendering.GameRenderer.RenderMovement | wanderer/renderer.py:72-120 | a non-positive walk speed fails the assertion and saves nothing; otherwise the frames saved and the result are those of the walk's phase, and the map image is the trail image |
| Rendering.GameRenderer.WalkAlong | wanderer/renderer.py:89-120 | the walk loop saves exactly the walk phase's frames, returns its result, and leaves the trail image as the map image |
| Rendering.GameRenderer.WalkFrame | wanderer/renderer.py:90-118 | one point of the walk: the trail is stored in the map image at the last point, before the arrow is pasted, and the frame is saved |
| Rendering.GameRenderer.RenderMapTransition | wanderer/renderer.py:122-151 | a crop that does not fit either map fails before any frame; otherwise the frames saved are the cross-fade of the two crops |
| Rendering.GameRenderer.FadeAlong | wanderer/renderer.py:141-151 | the fade loop saves exactly the cross-fade phase's frames and returns its result |
| Rendering.GameRenderer.RenderFinalZoomOut | wanderer/renderer.py:153-189 | a non-positive speed fails and saves nothing; otherwise the frames saved and the result are those of the zoom-out phase |
| Rendering.GameRenderer.SaveAlong | wanderer/renderer.py:173-189 | the zoom loop saves exactly the phase's frames for the pictures of its points and returns its result |
| Rendering.LegPass | wanderer/renderer.py:32-50 | one pass of the loop keeps the set of maps and changes no map image but the start map's |
| Rendering.ZoomPass | wanderer/renderer.py:52-58 | the zoom-out changes no map image |
| Rendering.LegPassNumbered | wanderer/renderer.py:32-50 | a pass run on from the frames saved so far keeps the output numbered 0, 1, …; when it completes it hands on the new total, having saved its phase's frame count |
| Rendering.LegPassPictures | wanderer/renderer.py:32-50 | a movement that changes maps saves only blends and leaves every image as it was; any other saves only crops of a picture with the arrow pasted |
| Rendering.ZoomPassNumbered | wanderer/renderer.py:52-58 | the zoom-out keeps the output numbered and, when it completes, hands on the new total, having saved its frame count |
| Rendering.LegsPassNumbered | wanderer/renderer.py:30-50 | the loop numbers its frames 0, 1, … across all movements and, when it completes, hands on how many it saved: one phase per movement |
| Rendering.LegsPassStopped | wanderer/renderer.py:32-50 | once a movement's pass fails, the later movements save nothing and change no image |
| Rendering.RoutePassNumbered | wanderer/renderer.py:30-58 | the render numbers its frames 0, 1, …; an empty route saves nothing, changes nothing and fails at `movements[-1]`; a completed render returns the total, one phase per movement plus the zoom-out |
| Rendering.GameRenderer.RenderLeg | wanderer/renderer.py:32-50 | saves exactly the frames of the movement's pass (a cross-fade of the two maps' current images when the maps differ, a walk otherwise), returns its next number or error, and leaves each map image as the pass does: only a walk's map changes, to its trail image |
| Rendering.GameRenderer.RenderEnding | wanderer/renderer.py:52-58 | saves exactly the zoom-out pass's frames, over the current image of the last location's map, and returns its result |
| Rendering.GameRenderer.RenderLegs | wanderer/renderer.py:30-50 | from no frames, the loop over the movements saves exactly the frames of their passes in order, each on the images the one before left, up to the first error; it returns the loop's next number or that error, and the map images end as the passes leave them |
| Rendering.GameRenderer.RenderMovements | wanderer/renderer.py:30-58 | from no frames, saves exactly the frames of the route's passes in order, each on the images the one before left, up to the first error, then the zoom-out; returns the route pass's result (`EmptyRoute` for no movements), and the map images end as the passes leave them |
| Rendering.GameRenderer.RenderRoute | wanderer/renderer.py:18-58 | empties the output; a route that does not compile fails with its error and saves nothing; otherwise saves exactly the route pass over the maps' images as they were, returns its result and leaves the trails in the images; the maps stay valid and their location tables unchanged |

## Left out

- Reading files and directories is not modelled. This covers `get_available_games`, `parse_game`, `parse_game_map`, `Game.load_from_dict`, `GameMap.load_from_config`, `get_available_routes`, JSON loading and `readlines`. A route file or location file is the sequence of its lines, and a game is built from its kinds of movement and maps.
- Emptying the output directory (wanderer/renderer.py:19-25) is modelled as `written := []`. Files with other extensions are not modelled.
- PIL is not modelled: pixels and the actual opening, copying, drawing, pasting, cropping, blending, resizing and saving. Images are terms recording those operations.
- `overlay_arrow` (wanderer/renderer.py:191-207) is one `Arrow` term. Its `atan2`/`degrees` rotation, the 24-pixel size, `arrow.png` and the alpha mask are left out.
- The ffmpeg call (wanderer/renderer.py:60-70) and every `print` are left out. They are output only.
- `colour_tuple` is called at wanderer/renderer.py:99 but never defined, so it would raise AttributeError. The model keeps the kind of movement's colour code as the line colour.
- The `MapMarker` import at wanderer/__init__.py:10 is broken. `render_thingy` in main.py, src/__init__.py and wanderer/__init__.py is file I/O of a one-off drawing. Both are left out.
- Floating point is exact reals, with no rounding. So `points[-1] == end` never holds, and `end` is always appended (Interpolation.PointsBetweenShape). `math.sqrt` and `math.acos` are parameters, and the π/4 doctest of `angle_between` is not stated.
- `slugify`, `fuzz.ratio`, `str.lower` and `str.strip` are uninterpreted. Only the slug keying and the threshold 55 are modelled.
- `__str__`, `short_str`, `__hash__` and `wanderer/__main__.py` are display and glue code.
- Rendering.GameRenderer.RenderRoute: the source returns `None`. The model returns the number of frames saved, as `Ok`, so it can be stated.
- Rendering.GameRenderer.RenderFinalZoomOut: reads `crop_size` as (width, height) through `GetCropAtPositionWidthFirst`. This is the corrected half of the finding below. `ZoomCropAsWritten` and `ZoomCropAsWrittenExample` state what the code as written does: transposed crops, then a ValueError from ratio 257/512 on a 1024 × 768 map.
- Rendering.ZoomPictures: uses the corrected (width, height) crop, so it does not show the transposed frames or the ValueError of the code as written.
- Rendering.ZoomPass: built on `ZoomPictures`, so it has the corrected crop too.
- Rendering.RoutePass: ends with `ZoomPass`, so a route that reaches the zoom-out is rendered with the corrected crop, not stopped part-way as the code as written would be.
- Rendering.GameRenderer.RenderEnding: calls `RenderFinalZoomOut`, with the corrected crop.
- Rendering.GameRenderer.RenderMovements: ends with `RenderEnding`, with the corrected crop.
- Rendering.GameRenderer.RenderRoute: renders through `RenderMovements`, with the corrected crop.
- Games.LocationFromConfig: a config is a record of optional name, x and y; other keys, and values of the wrong type, are not modelled.
- The loops of `render_route`, `render_movement`, `render_map_transition`, `render_final_zoom_out`, `Game.parse_route_file` and `main.parse_route_file` are written as separate loop methods, with one method for the loop body (e.g. `WalkAlong` and `WalkFrame`). Their statements and order are the source's.
- MainScript.LoadLines is stated for any line reader; `AddLocations` instantiates it with `ParseLocation`. Its lemmas therefore hold for that reader in particular.
- In `main.py`, `movements[-1]` of an empty route and `lines[0]` of an empty file raise IndexError. These are the errors `EmptyRoute` and `EmptyRouteFile`. `None.group` on a line that does not match is `StartLineMismatch` or `LocationLineMismatch`.

## Findings

| source | as written | input that shows it | evidently intended | confidence | as-written member | corrected member |
|---|---|---|---|---|---|---|
| wanderer/game.py:313 | `get_crop_at_position` unpacks `crop_size` as (height, width), but `render_final_zoom_out` passes (int(resize.x), int(resize.y)) at wanderer/renderer.py:184 | a zoom-out on a 1024 × 768 map: at ratio r the crop is (int(512 + 512r), int(512 + 256r)), and its first part is compared with the height 768. Before r = 257/512 every frame crops a window of the wrong shape (576 wide instead of 640 at r = 1/4); from r = 257/512 on, the crop is refused with a ValueError and the render stops, so the second half of the zoom-out and the video are lost | the crop read as (width, height), so every frame has the interpolated shape and the last one shows the whole map | not executed | Rendering.ZoomCropAsWritten, Rendering.ZoomCropAsWrittenExample and Rendering.ZoomEndCropAsWritten | Games.GameMap.GetCropAtPositionWidthFirst (with Rendering.ZoomCropFits and Rendering.ZoomStepsSucceed) |
