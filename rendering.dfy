/** The frame sequencer of `wanderer/renderer.py`: a route is rendered as a
    walk along each movement on one map, a cross-fade for each movement that
    changes maps, and one zoom-out from the last location to the middle of
    its map. Every frame is saved under the next number of one counter that
    runs through all phases. */
module Rendering {
  import opened Results
  import opened Foreign
  import opened Numbers
  import opened Vectors
  import opened Interpolation
  import opened Images
  import opened Games

  const FrameRate: nat := 24
  const Extension: string := "jpeg"
  /** The side of every output frame, and of the walk's crop window. */
  const FrameSide: int := 512
  /** The largest frame number the filename assertion lets through. */
  const MaxFrameIndex: int := 100000

  // ---- frames and their files ----

  /** `get_output_filename`: "output_" + the index in six zero-padded digits +
      "." + the extension; the assertion on the index is the precondition. */
  function OutputFilename(index: int, extension: string): (s: string)
    requires 0 <= index <= MaxFrameIndex
    ensures |s| == 14 + |extension|
    ensures s[..7] == "output_" && s[13..] == "." + extension
    ensures AllDigits(s[7..13]) && Value(s[7..13]) == index
  {
    ZeroPaddedRoundTrip(index, 6);
    MiddleOfConcat("output_", ZeroPadded(index, 6), "." + extension);
    var s := "output_" + ZeroPadded(index, 6) + ("." + extension);
    assert s[..7] == "output_";
    assert s[13..] == "." + extension;
    s
  }

  /** The six digits of a filename read back as its index, so no two frame
      numbers share a file. */
  lemma OutputFilenameInjective(i: int, j: int, extension: string)
    requires 0 <= i <= MaxFrameIndex && 0 <= j <= MaxFrameIndex
    requires OutputFilename(i, extension) == OutputFilename(j, extension)
    ensures i == j
  {
  }

  lemma MiddleOfConcat<T>(a: seq<T>, b: seq<T>, c: seq<T>)
    ensures (a + b + c)[|a|..|a| + |b|] == b
  {
    assert (a + b + c)[|a|..|a| + |b|] == b;
  }

  /** A saved frame: its number, the image format it is saved in and its
      picture. It is saved to the file `FrameFile(frame)`. */
  datatype Frame = Frame(index: int, extension: string, picture: Image)

  function FrameFile(frame: Frame): string
    requires 0 <= frame.index <= MaxFrameIndex
  {
    OutputFilename(frame.index, frame.extension)
  }

  // ---- one phase: a loop that saves one frame per step ----

  /** The frames saved by the first `n` steps of a phase whose step pictures
      are `pictures` and whose first frame is number `index`; how many steps
      got past the filename assertion; and the next frame number or the
      error that stopped the phase. */
  datatype Run = Run(frames: seq<Frame>, reached: nat, result: Result<int>)

  function RunSteps(pictures: seq<Result<Image>>, index: int, extension: string, n: nat): (run: Run)
    requires n <= |pictures|
    ensures |run.frames| <= run.reached <= n
  {
    if n == 0 then Run([], 0, Ok(index))
    else
      var prev := RunSteps(pictures, index, extension, n - 1);
      if prev.result.Err? then prev
      else
        var current := prev.result.value;
        if !(0 <= current <= MaxFrameIndex) then Run(prev.frames, prev.reached, Err(FrameIndexCeiling(current)))
        else
          match pictures[n - 1]
          case Err(e) => Run(prev.frames, prev.reached + 1, Err(e))
          case Ok(picture) =>
            Run(prev.frames + [Frame(current, extension, picture)], prev.reached + 1, Ok(current + 1))
  }

  /** A step saves a frame, numbered on from the frames before, or saves
      nothing. */
  lemma RunFramesStep(pictures: seq<Result<Image>>, index: int, extension: string, n: nat)
    requires 0 < n <= |pictures|
    ensures var prev := RunSteps(pictures, index, extension, n - 1);
            var run := RunSteps(pictures, index, extension, n);
            run.frames == prev.frames ||
            (prev.result.Ok? && pictures[n - 1].Ok? &&
             run.frames == prev.frames + [Frame(prev.result.value, extension, pictures[n - 1].value)] &&
             0 <= prev.result.value <= MaxFrameIndex)
  {
  }

  /** Frames are numbered on from `index`, all in range of the filename
      assertion and in the given format. */
  lemma {:induction false} RunNumbering(pictures: seq<Result<Image>>, index: int, extension: string, n: nat)
    requires n <= |pictures|
    ensures var run := RunSteps(pictures, index, extension, n);
            forall i :: 0 <= i < |run.frames| ==>
              run.frames[i].index == index + i && 0 <= run.frames[i].index <= MaxFrameIndex &&
              run.frames[i].extension == extension
  {
    if n > 0 {
      RunNumbering(pictures, index, extension, n - 1);
      RunCount(pictures, index, extension, n - 1);
      RunFramesStep(pictures, index, extension, n);
      var prev := RunSteps(pictures, index, extension, n - 1);
      var run := RunSteps(pictures, index, extension, n);
      if run.frames != prev.frames {
        forall i | 0 <= i < |run.frames|
          ensures run.frames[i].index == index + i && 0 <= run.frames[i].index <= MaxFrameIndex &&
                  run.frames[i].extension == extension
        {
          if i < |prev.frames| {
            assert run.frames[i] == prev.frames[i];
          }
        }
      }
    }
  }

  /** Frame `i` of a phase shows the picture of step `i`. */
  lemma {:induction false} RunPictures(pictures: seq<Result<Image>>, index: int, extension: string, n: nat)
    requires n <= |pictures|
    ensures var run := RunSteps(pictures, index, extension, n);
            forall i :: 0 <= i < |run.frames| ==> pictures[i] == Ok(run.frames[i].picture)
  {
    if n > 0 {
      RunPictures(pictures, index, extension, n - 1);
      RunCount(pictures, index, extension, n - 1);
      RunFramesStep(pictures, index, extension, n);
      var prev := RunSteps(pictures, index, extension, n - 1);
      var run := RunSteps(pictures, index, extension, n);
      if run.frames != prev.frames {
        forall i | 0 <= i < |run.frames| ensures pictures[i] == Ok(run.frames[i].picture) {
          if i < |prev.frames| {
            assert run.frames[i] == prev.frames[i];
          }
        }
      }
    }
  }

  /** A phase that completes saves one frame per step and hands on the
      number after its last frame. */
  lemma {:induction false} RunCount(pictures: seq<Result<Image>>, index: int, extension: string, n: nat)
    requires n <= |pictures|
    ensures var run := RunSteps(pictures, index, extension, n);
            run.result.Ok? ==> |run.frames| == n && run.reached == n && run.result.value == index + n
  {
    if n > 0 {
      RunCount(pictures, index, extension, n - 1);
    }
  }

  /** A phase stops only at a frame number past the ceiling or at a step
      whose picture fails, with that step's error. */
  lemma {:induction false} RunError(pictures: seq<Result<Image>>, index: int, extension: string, n: nat)
    requires n <= |pictures|
    ensures var run := RunSteps(pictures, index, extension, n);
            run.result.Err? ==> run.result.error.FrameIndexCeiling? ||
                                exists k :: 0 <= k < n && pictures[k] == Err(run.result.error)
  {
    if n > 0 {
      RunError(pictures, index, extension, n - 1);
    }
  }

  /** A step whose frame number is past the ceiling stops the phase before
      its picture is made. */
  lemma RunCeiling(pictures: seq<Result<Image>>, index: int, extension: string, k: nat, current: int)
    requires k < |pictures| && RunSteps(pictures, index, extension, k).result == Ok(current)
    requires !(0 <= current <= MaxFrameIndex)
    ensures var prev := RunSteps(pictures, index, extension, k);
            RunSteps(pictures, index, extension, k + 1) == Run(prev.frames, prev.reached, Err(FrameIndexCeiling(current)))
  {
  }

  /** A step whose frame number is in range: a failing picture stops the
      phase in the step, and otherwise the frame is saved. */
  lemma RunAdvance(pictures: seq<Result<Image>>, index: int, extension: string, k: nat, current: int)
    requires k < |pictures| && RunSteps(pictures, index, extension, k).result == Ok(current)
    requires 0 <= current <= MaxFrameIndex
    ensures var prev := RunSteps(pictures, index, extension, k);
            var next := RunSteps(pictures, index, extension, k + 1);
            (pictures[k].Err? ==> next == Run(prev.frames, prev.reached + 1, Err(pictures[k].error))) &&
            (pictures[k].Ok? ==>
               next == Run(prev.frames + [Frame(current, extension, pictures[k].value)], prev.reached + 1,
                           Ok(current + 1)))
  {
  }

  /** Once a phase has stopped, the later steps change nothing. */
  lemma {:induction false} RunStopped(pictures: seq<Result<Image>>, index: int, extension: string, n: nat, m: nat)
    requires n <= m <= |pictures|
    requires RunSteps(pictures, index, extension, n).result.Err?
    ensures RunSteps(pictures, index, extension, m) == RunSteps(pictures, index, extension, n)
    decreases m - n
  {
    if n < m {
      RunStopped(pictures, index, extension, n, m - 1);
    }
  }

  /** The pictures a loop over `points` makes, one per point. */
  function PicturesAlong(picture: Position2D -> Result<Image>, points: seq<Position2D>): (r: seq<Result<Image>>)
    ensures |r| == |points|
    ensures forall k :: 0 <= k < |points| ==> r[k] == picture(points[k])
  {
    seq(|points|, k requires 0 <= k < |points| => picture(points[k]))
  }

  lemma AppendAssoc<T>(a: seq<T>, b: seq<T>, c: seq<T>)
    ensures a + (b + c) == (a + b) + c
  {
  }

  /** A value is among the first `k + 1` elements exactly when it is among
      the first `k` or is element `k`. */
  lemma InPrefixStep<T>(s: seq<T>, k: nat, x: T)
    requires k < |s|
    ensures x in s[..k + 1] <==> x in s[..k] || s[k] == x
  {
    assert s[..k + 1] == s[..k] + [s[k]];
  }

  // ---- the walk ----

  /** `movement_speed` of `render_movement`, in pixels per frame. */
  function WalkSpeed(movement: Movement, frameRate: int): real
    requires frameRate != 0
  {
    movement.movementType.pixelsPerSecond * movement.start.gameMap.speedMultiplier / frameRate as real
  }

  /** On a map with a positive speed multiplier and a positive frame rate,
      the walk speed is positive exactly when the kind of movement has a
      positive speed: a standing kind of movement trips the assertion of
      `points_between`. */
  lemma WalkSpeedPositive(movement: Movement, frameRate: int)
    requires 0 < frameRate && 0.0 < movement.start.gameMap.speedMultiplier
    requires 0.0 <= movement.movementType.pixelsPerSecond
    ensures 0.0 < WalkSpeed(movement, frameRate) <==> 0.0 < movement.movementType.pixelsPerSecond
  {
    var pps := movement.movementType.pixelsPerSecond;
    var mult := movement.start.gameMap.speedMultiplier;
    var rate := frameRate as real;
    if 0.0 < pps {
      MulPosInto(pps, mult, pps * mult);
      MulPosInto(pps * mult / rate, rate, pps * mult);
    } else {
      assert pps * mult == 0.0;
    }
  }

  /** The points the walk visits, one per frame. */
  function WalkPoints(movement: Movement, frameRate: int, sqrt: real -> real): (r: seq<Position2D>)
    requires frameRate != 0 && 0.0 < WalkSpeed(movement, frameRate) && IsSqrt(sqrt)
    ensures 1 <= |r|
  {
    PointsBetween(movement.start.position, movement.end.position, WalkSpeed(movement, frameRate), sqrt)
  }

  /** `get_crop_at_position(point, (512, 512))` of a map, as a function of
      the point. */
  function FrameCrop(m: GameMap): Position2D -> Result<Box> {
    point => m.GetCropAtPosition(point, (FrameSide, FrameSide))
  }

  /** The frame of the walk at `point`: the trail from `from` to the point
      drawn on `base`, the arrow pasted at the point, cropped by `cropAt` to
      a frame around it. */
  function WalkPicture(cropAt: Position2D -> Result<Box>, base: Image, from: Position2D, to: Position2D,
                       colour: string, point: Position2D): Result<Image>
  {
    match cropAt(point)
    case Err(e) => Err(e)
    case Ok(box) => Ok(Cropped(Arrow(Line(base, from, point, colour), from, to, point), box))
  }

  /** The body of the walk loop, as a function of the point. */
  function WalkStep(cropAt: Position2D -> Result<Box>, base: Image, from: Position2D, to: Position2D, colour: string)
    : Position2D -> Result<Image>
  {
    point => WalkPicture(cropAt, base, from, to, colour, point)
  }

  lemma WalkPictureAt(cropAt: Position2D -> Result<Box>, base: Image, from: Position2D, to: Position2D,
                      colour: string, points: seq<Position2D>, k: nat)
    requires k < |points|
    ensures PicturesAlong(WalkStep(cropAt, base, from, to, colour), points)[k]
            == WalkPicture(cropAt, base, from, to, colour, points[k])
  {
  }

  /** The frames of the walk along `movement`, drawn on `image`. */
  function WalkPictures(movement: Movement, image: Image, frameRate: int, sqrt: real -> real)
    : (r: seq<Result<Image>>)
    requires frameRate != 0 && 0.0 < WalkSpeed(movement, frameRate) && IsSqrt(sqrt)
    ensures |r| == |WalkPoints(movement, frameRate, sqrt)|
  {
    PicturesAlong(WalkStep(FrameCrop(movement.start.gameMap), image, movement.start.position, movement.end.position,
                           movement.movementType.colourCode),
                  WalkPoints(movement, frameRate, sqrt))
  }

  /** The map image after the first `reached` steps of a walk: the trail to
      the last point once a step at that point has been reached. */
  function TrailImage(points: seq<Position2D>, reached: nat, base: Image, from: Position2D, colour: string,
                      before: Image): Image
    requires 1 <= |points| && reached <= |points|
  {
    if points[|points| - 1] in points[..reached] then Line(base, from, points[|points| - 1], colour) else before
  }

  /** The map image is replaced only once the step at the last point is
      reached, and then by the base image with the whole trail drawn and
      without the arrow. */
  lemma WalkTrail(movement: Movement, frameRate: int, sqrt: real -> real, reached: nat, base: Image, before: Image)
    requires frameRate != 0 && 0.0 < WalkSpeed(movement, frameRate) && IsSqrt(sqrt)
    requires reached <= |WalkPoints(movement, frameRate, sqrt)|
    ensures TrailImage(WalkPoints(movement, frameRate, sqrt), reached, base, movement.start.position,
                       movement.movementType.colourCode, before)
            == if reached == |WalkPoints(movement, frameRate, sqrt)|
               then Line(base, movement.start.position, movement.end.position, movement.movementType.colourCode)
               else before
  {
    var points := WalkPoints(movement, frameRate, sqrt);
    var n := |points|;
    if reached == n {
      assert points[..n] == points;
      assert points[n - 1] in points[..n];
    } else {
      forall k | 0 <= k < reached ensures points[..reached][k] != points[n - 1] {
        PointsBetweenDistinct(movement.start.position, movement.end.position, WalkSpeed(movement, frameRate),
                              sqrt, k, n - 1);
      }
    }
  }

  // ---- the cross-fade ----

  /** `frame_count = int(frame_rate / 2)`. */
  function FadeCount(frameRate: nat): nat {
    Trunc(frameRate as real / 2.0)
  }

  lemma FadeCountAtFrameRate()
    ensures FadeCount(FrameRate) == 12
  {
  }

  /** Step `k` of a cross-fade of `count` frames: `Image.blend` at `k / count`. */
  function FadePicture(first: Image, second: Image, count: nat, k: nat): Result<Image>
    requires k < count
  {
    Ok(Blended(first, second, k as real / count as real))
  }

  function FadePictures(first: Image, second: Image, count: nat): (r: seq<Result<Image>>)
    ensures |r| == count
  {
    seq(count, k requires 0 <= k < count => FadePicture(first, second, count, k))
  }

  lemma FadePictureAt(first: Image, second: Image, count: nat, k: nat)
    requires k < count
    ensures FadePictures(first, second, count)[k] == FadePicture(first, second, count, k)
  {
  }

  /** The blend factors `i / frame_count` start at 0, increase strictly and
      stay below 1, so the fade never shows the second map alone. */
  lemma FadeFactors(first: Image, second: Image, count: nat, i: nat, j: nat)
    requires i < j < count
    ensures FadePicture(first, second, count, 0) == Ok(Blended(first, second, 0.0))
    ensures var a := FadePicture(first, second, count, i).value.alpha;
            var b := FadePicture(first, second, count, j).value.alpha;
            0.0 <= a < b < 1.0
  {
    var c := count as real;
    MulPosInto(c, 1.0 / c, 1.0);
    MulNonNegInto(i as real, 1.0 / c, i as real / c);
    MulPosInto(j as real - i as real, 1.0 / c, j as real / c - i as real / c);
    MulPosInto(c - j as real, 1.0 / c, 1.0 - j as real / c);
  }

  // ---- the zoom-out ----

  /** `movement_speed` of `render_final_zoom_out`: half the walking speed on
      the map of the last location. */
  function ZoomSpeed(movement: Movement, frameRate: int): real
    requires frameRate != 0
  {
    movement.movementType.pixelsPerSecond * movement.end.gameMap.speedMultiplier * 0.5 / frameRate as real
  }

  /** The middle of a map, `image_size / 2`. */
  function Middle(m: GameMap): Position2D {
    Div(m.ImageSize(), 2.0)
  }

  /** The points the zoom-out visits, one per frame. */
  function ZoomPoints(movement: Movement, frameRate: int, sqrt: real -> real): (r: seq<Position2D>)
    requires frameRate != 0 && 0.0 < ZoomSpeed(movement, frameRate) && IsSqrt(sqrt)
    ensures 1 <= |r|
  {
    PointsBetween(movement.end.position, Middle(movement.end.gameMap), ZoomSpeed(movement, frameRate), sqrt)
  }

  /** The ratio of the zoom-out at `point`: how far the point has come from
      `from` compared with the whole way to `to`. */
  function ZoomRatio(from: Position2D, to: Position2D, point: Position2D, sqrt: real -> real): Result<real> {
    var whole := Magnitude(Sub(from, to), sqrt);
    if whole == 0.0 then Err(ZeroDivision) else Ok(Magnitude(Sub(from, point), sqrt) / whole)
  }

  /** The crop size of the zoom-out at a ratio: from a frame-sized window at
      the start to the whole image at the end, each side truncated by `int`. */
  function ZoomCropSize(m: GameMap, ratio: real): (int, int)
    requires 0.0 <= ratio <= 1.0
  {
    var resize := Lerp(Position2D(FrameSide as real, FrameSide as real), m.ImageSize(), ratio);
    (Trunc(resize.x), Trunc(resize.y))
  }

  /** The frame of the zoom-out at `point`: a crop of `base` around the point,
      growing with the ratio, scaled to frame size. The crop size is read as
      `(width, height)`; see `ZoomEndCropAsWritten`. */
  function ZoomPicture(m: GameMap, base: Image, from: Position2D, to: Position2D, point: Position2D,
                       sqrt: real -> real): Result<Image>
  {
    match ZoomRatio(from, to, point, sqrt)
    case Err(e) => Err(e)
    case Ok(ratio) =>
      if !(0.0 <= ratio <= 1.0) then Err(InvalidArgument("delta"))
      else
        match m.GetCropAtPositionWidthFirst(point, ZoomCropSize(m, ratio))
        case Err(e) => Err(e)
        case Ok(box) => Ok(Resized(Cropped(base, box), FrameSide as nat, FrameSide as nat))
  }

  /** The body of the zoom-out loop, as a function of the point. */
  function ZoomStep(m: GameMap, base: Image, from: Position2D, to: Position2D, sqrt: real -> real)
    : Position2D -> Result<Image>
  {
    point => ZoomPicture(m, base, from, to, point, sqrt)
  }

  lemma ZoomPictureAt(m: GameMap, base: Image, from: Position2D, to: Position2D, points: seq<Position2D>,
                      sqrt: real -> real, k: nat)
    requires k < |points|
    ensures PicturesAlong(ZoomStep(m, base, from, to, sqrt), points)[k] == ZoomPicture(m, base, from, to, points[k], sqrt)
  {
  }

  /** The frames of the zoom-out after `movement`, from its end to the middle
      of its map. */
  function ZoomPictures(movement: Movement, image: Image, frameRate: int, sqrt: real -> real)
    : (r: seq<Result<Image>>)
    requires frameRate != 0 && 0.0 < ZoomSpeed(movement, frameRate) && IsSqrt(sqrt)
    ensures |r| == |ZoomPoints(movement, frameRate, sqrt)|
  {
    var m := movement.end.gameMap;
    PicturesAlong(ZoomStep(m, image, movement.end.position, Middle(m), sqrt), ZoomPoints(movement, frameRate, sqrt))
  }

  lemma DivAtMostOne(a: real, d: real)
    requires 0.0 <= a <= d && 0.0 < d
    ensures 0.0 <= a / d <= 1.0
  {
    if a / d < 0.0 {
      MulPosInto(-(a / d), d, -a);
    }
    if 1.0 < a / d {
      MulPosInto(a / d - 1.0, d, a - d);
    }
  }

  /** The zoom ratio stays within [0, 1] at every point, so the assertion
      of `lerp` always holds; it is 1 at the last point. */
  lemma ZoomRatioInRange(from: Position2D, to: Position2D, speed: real, sqrt: real -> real, k: nat)
    requires 0.0 < speed && IsSqrt(sqrt) && from != to
    requires k < |PointsBetween(from, to, speed, sqrt)|
    ensures ZoomRatio(from, to, PointsBetween(from, to, speed, sqrt)[k], sqrt).Ok?
    ensures 0.0 <= ZoomRatio(from, to, PointsBetween(from, to, speed, sqrt)[k], sqrt).value <= 1.0
    ensures k == |PointsBetween(from, to, speed, sqrt)| - 1 ==>
              ZoomRatio(from, to, PointsBetween(from, to, speed, sqrt)[k], sqrt) == Ok(1.0)
  {
    var p := PointsBetween(from, to, speed, sqrt)[k];
    var whole := Magnitude(Sub(from, to), sqrt);
    DistancePositive(from, to, sqrt);
    PointsBetweenDistances(from, to, speed, sqrt, k);
    MagnitudeOfSubSymmetric(from, to, sqrt);
    MagnitudeOfSubSymmetric(from, p, sqrt);
    MagnitudeLaws(Sub(p, from), sqrt);
    DivAtMostOne(Magnitude(Sub(from, p), sqrt), whole);
    if k == |PointsBetween(from, to, speed, sqrt)| - 1 {
      assert p == to;
      DivSelf(whole);
    }
  }

  lemma DivSelf(d: real)
    requires d != 0.0
    ensures d / d == 1.0
  {
  }

  /** The ratio from a point to itself divides by zero: a zoom-out from the
      middle of its map stops at its only point. */
  lemma ZoomRatioOfSameEnds(from: Position2D, to: Position2D, point: Position2D, sqrt: real -> real)
    requires IsSqrt(sqrt) && from == to
    ensures ZoomRatio(from, to, point, sqrt) == Err(ZeroDivision)
  {
    MagnitudeLaws(Sub(from, to), sqrt);
  }

  /** As written, the last frame of a zoom-out on a map that is not square
      asks for a crop of the whole image with its sides swapped, which
      `get_crop_at_position` refuses. */
  lemma ZoomEndCropAsWritten(m: GameMap, point: Position2D)
    requires m.imageWidth != m.imageHeight
    ensures ZoomCropSize(m, 1.0) == (m.imageWidth as int, m.imageHeight as int)
    ensures m.GetCropAtPosition(point, ZoomCropSize(m, 1.0)).Err?
  {
    TruncOfInt(m.imageWidth);
    TruncOfInt(m.imageHeight);
  }

  /** As written, the crop of the zoom-out at ratio `ratio` on a map at least
      one frame wide and high is refused exactly when the interpolated width
      reaches one past the image height or the interpolated height one past
      the image width: `crop_size` is read as `(height, width)`. */
  lemma ZoomCropAsWritten(m: GameMap, point: Position2D, ratio: real)
    requires 0.0 <= ratio <= 1.0
    requires FrameSide <= m.imageWidth && FrameSide <= m.imageHeight
    ensures var resize := Lerp(Position2D(FrameSide as real, FrameSide as real), m.ImageSize(), ratio);
            m.GetCropAtPosition(point, ZoomCropSize(m, ratio)).Err? <==>
              (m.imageHeight + 1) as real <= resize.x || (m.imageWidth + 1) as real <= resize.y
  {
    var resize := Lerp(Position2D(FrameSide as real, FrameSide as real), m.ImageSize(), ratio);
    assert 0.0 <= resize.x && 0.0 <= resize.y;
    TruncAbove(resize.x, m.imageHeight);
    TruncAbove(resize.y, m.imageWidth);
  }

  lemma TruncAbove(r: real, n: int)
    requires 0.0 <= r
    ensures Trunc(r) > n <==> (n + 1) as real <= r
  {
  }

  /** On a map 1024 wide and 768 high, the zoom-out as written crops a window
      576 wide where 640 was meant at ratio 1/4, and at ratio 3/4 asks for a
      window 896 high, which is refused, where the width-first reading crops
      one 896 wide. */
  lemma ZoomCropAsWrittenExample(m: GameMap, point: Position2D)
    requires m.imageWidth == 1024 && m.imageHeight == 768
    ensures ZoomCropSize(m, 0.25) == (640, 576)
    ensures var asWritten := m.GetCropAtPosition(point, ZoomCropSize(m, 0.25));
            var meant := m.GetCropAtPositionWidthFirst(point, ZoomCropSize(m, 0.25));
            asWritten.Ok? && meant.Ok? &&
            asWritten.value.right - asWritten.value.left == 576 && meant.value.right - meant.value.left == 640
    ensures ZoomCropSize(m, 0.75) == (896, 704)
    ensures m.GetCropAtPosition(point, ZoomCropSize(m, 0.75)).Err?
    ensures m.GetCropAtPositionWidthFirst(point, ZoomCropSize(m, 0.75)).Ok?
  {
    TruncOfInt(640);
    TruncOfInt(576);
    TruncOfInt(896);
    TruncOfInt(704);
    WindowBounds(point.x, 576, 1024);
    WindowBounds(point.x, 640, 1024);
  }

  /** Read as `(width, height)`, every crop of the zoom-out fits any map at
      least one frame wide and high. */
  lemma ZoomCropFits(m: GameMap, point: Position2D, ratio: real)
    requires 0.0 <= ratio <= 1.0
    requires FrameSide <= m.imageWidth && FrameSide <= m.imageHeight
    ensures m.GetCropAtPositionWidthFirst(point, ZoomCropSize(m, ratio)).Ok?
    ensures FrameSide <= ZoomCropSize(m, ratio).0 && FrameSide <= ZoomCropSize(m, ratio).1
  {
    var resize := Lerp(Position2D(FrameSide as real, FrameSide as real), m.ImageSize(), ratio);
    assert FrameSide as real <= resize.x <= m.imageWidth as real;
    assert FrameSide as real <= resize.y <= m.imageHeight as real;
    TruncOfInt(FrameSide);
  }

  /** A zoom-out on a map at least one frame wide and high, from a location
      that is not the middle, saves a picture at every step. */
  lemma ZoomStepsSucceed(movement: Movement, image: Image, frameRate: int, sqrt: real -> real, k: nat)
    requires frameRate != 0 && 0.0 < ZoomSpeed(movement, frameRate) && IsSqrt(sqrt)
    requires movement.end.position != Middle(movement.end.gameMap)
    requires FrameSide <= movement.end.gameMap.imageWidth && FrameSide <= movement.end.gameMap.imageHeight
    requires k < |ZoomPoints(movement, frameRate, sqrt)|
    ensures ZoomPictures(movement, image, frameRate, sqrt)[k].Ok?
  {
    var m := movement.end.gameMap;
    var points := ZoomPoints(movement, frameRate, sqrt);
    ZoomPictureAt(m, image, movement.end.position, Middle(m), points, sqrt, k);
    ZoomRatioInRange(movement.end.position, Middle(m), ZoomSpeed(movement, frameRate), sqrt, k);
    var ratio := ZoomRatio(movement.end.position, Middle(m), points[k], sqrt).value;
    ZoomCropFits(m, points[k], ratio);
  }

  // ---- the whole route ----

  /** The number of frames a phase saves for a movement when it completes. */
  function PhaseFrameCount(movement: Movement, sqrt: real -> real): nat
    requires IsSqrt(sqrt)
  {
    if movement.start.gameMap != movement.end.gameMap then FadeCount(FrameRate)
    else if 0.0 < WalkSpeed(movement, FrameRate) then |WalkPoints(movement, FrameRate, sqrt)|
    else 0
  }

  /** The frames a completed route saves for its movements: a fade or a walk
      each. */
  function MovementFrameCount(movements: seq<Movement>, sqrt: real -> real): nat
    requires IsSqrt(sqrt)
  {
    if movements == [] then 0
    else MovementFrameCount(movements[..|movements| - 1], sqrt) + PhaseFrameCount(movements[|movements| - 1], sqrt)
  }

  /** The frames of the zoom-out after the last movement. */
  function ZoomFrameCount(movement: Movement, sqrt: real -> real): nat
    requires IsSqrt(sqrt)
  {
    if 0.0 < ZoomSpeed(movement, FrameRate) then |ZoomPoints(movement, FrameRate, sqrt)| else 0
  }

  /** Saved frames numbered 0, 1, 2, ... in order, all in one format. */
  predicate Numbered(frames: seq<Frame>, extension: string) {
    forall i :: 0 <= i < |frames| ==>
      frames[i].index == i && i <= MaxFrameIndex && frames[i].extension == extension
  }

  /** Appending a phase's frames numbered from the count saved so far keeps
      the numbering contiguous. */
  lemma NumberedAppend(frames: seq<Frame>, pictures: seq<Result<Image>>, extension: string, n: nat)
    requires Numbered(frames, extension) && n <= |pictures|
    ensures Numbered(frames + RunSteps(pictures, |frames|, extension, n).frames, extension)
  {
    var run := RunSteps(pictures, |frames|, extension, n);
    var all := frames + run.frames;
    forall i | 0 <= i < |all|
      ensures all[i].index == i && i <= MaxFrameIndex && all[i].extension == extension
    {
      if i < |frames| {
        assert all[i] == frames[i];
      } else {
        RunFrameAt(pictures, |frames|, extension, n, i - |frames|);
        assert all[i] == run.frames[i - |frames|];
      }
    }
  }

  /** A phase run on from the frames saved so far keeps them numbered. */
  lemma PhaseNumbered(before: seq<Frame>, pictures: seq<Result<Image>>, extension: string, written: seq<Frame>)
    requires Numbered(before, extension)
    requires written == before + RunSteps(pictures, |before|, extension, |pictures|).frames
    ensures Numbered(written, extension)
  {
    NumberedAppend(before, pictures, extension, |pictures|);
  }

  /** A phase that completes has saved one frame per step and hands on the
      number of frames saved in all. */
  lemma PhaseCount(before: seq<Frame>, pictures: seq<Result<Image>>, extension: string,
                   written: seq<Frame>, r: Result<int>)
    requires var run := RunSteps(pictures, |before|, extension, |pictures|);
             written == before + run.frames && r == run.result
    ensures r.Ok? ==> r.value == |written| && |written| == |before| + |pictures|
  {
    RunCount(pictures, |before|, extension, |pictures|);
  }

  /** Frame `j` of a phase's run, numbered from `index`. */
  lemma RunFrameAt(pictures: seq<Result<Image>>, index: int, extension: string, n: nat, j: nat)
    requires n <= |pictures| && j < |RunSteps(pictures, index, extension, n).frames|
    ensures var frame := RunSteps(pictures, index, extension, n).frames[j];
            frame.index == index + j && 0 <= frame.index <= MaxFrameIndex && frame.extension == extension
  {
    RunNumbering(pictures, index, extension, n);
  }

  /** No two frames of a numbered sequence are saved to the same file. */
  lemma FrameFilesDistinct(frames: seq<Frame>, extension: string, i: nat, j: nat)
    requires Numbered(frames, extension) && i < j < |frames|
    ensures FrameFile(frames[i]) != FrameFile(frames[j])
  {
    if FrameFile(frames[i]) == FrameFile(frames[j]) {
      OutputFilenameInjective(i, j, extension);
    }
  }

  // ---- the whole route, phase by phase ----

  /** What a part of a render leaves behind: the frames it saved, the map
      images afterwards, and the next frame number or the error that
      stopped it. */
  datatype Pass = Pass(frames: seq<Frame>, images: map<GameMap, Image>, result: Result<int>)

  /** One pass of the loop of `render_route` over `movement`, numbered from
      `index`, on maps whose images are `images`: the cross-fade of the two
      crops when the movement changes maps, the walk otherwise. Only the walk
      changes an image: its map's, once its last point is reached. */
  function LegPass(movement: Movement, images: map<GameMap, Image>, index: int, sqrt: real -> real): (p: Pass)
    requires IsSqrt(sqrt) && movement.start.gameMap in images && movement.end.gameMap in images
    ensures p.images.Keys == images.Keys
    ensures forall m :: m in images && m != movement.start.gameMap ==> p.images[m] == images[m]
  {
    var s, e := movement.start.gameMap, movement.end.gameMap;
    if s != e then
      var c1 := s.GetCropAtPosition(movement.start.position, (FrameSide, FrameSide));
      var c2 := e.GetCropAtPosition(movement.end.position, (FrameSide, FrameSide));
      if c1.Err? then Pass([], images, Err(c1.error))
      else if c2.Err? then Pass([], images, Err(c2.error))
      else
        var pictures := FadePictures(Cropped(images[s], c1.value), Cropped(images[e], c2.value), FadeCount(FrameRate));
        var run := RunSteps(pictures, index, Extension, |pictures|);
        Pass(run.frames, images, run.result)
    else if WalkSpeed(movement, FrameRate) <= 0.0 then Pass([], images, Err(NonPositiveSpeed))
    else
      var pictures := WalkPictures(movement, images[s], FrameRate, sqrt);
      var run := RunSteps(pictures, index, Extension, |pictures|);
      var trail := TrailImage(WalkPoints(movement, FrameRate, sqrt), run.reached, images[s], movement.start.position,
                              movement.movementType.colourCode, images[s]);
      Pass(run.frames, images[s := trail], run.result)
  }

  /** The zoom-out after `lastMovement`, numbered from `index`, over the
      current image of the last location's map. */
  function ZoomPass(lastMovement: Movement, images: map<GameMap, Image>, index: int, sqrt: real -> real): (p: Pass)
    requires IsSqrt(sqrt) && lastMovement.end.gameMap in images
    ensures p.images == images
  {
    if ZoomSpeed(lastMovement, FrameRate) <= 0.0 then Pass([], images, Err(NonPositiveSpeed))
    else
      var run := ZoomRun(lastMovement, images[lastMovement.end.gameMap], index, sqrt);
      Pass(run.frames, images, run.result)
  }

  /** The zoom-out phase over `image`, numbered from `index`. */
  function ZoomRun(lastMovement: Movement, image: Image, index: int, sqrt: real -> real): Run
    requires IsSqrt(sqrt) && 0.0 < ZoomSpeed(lastMovement, FrameRate)
  {
    var pictures := ZoomPictures(lastMovement, image, FrameRate, sqrt);
    RunSteps(pictures, index, Extension, |pictures|)
  }

  /** The maps of every movement have an image in `images`. */
  predicate OnMaps(movements: seq<Movement>, images: map<GameMap, Image>) {
    forall leg :: leg in movements ==> leg.start.gameMap in images && leg.end.gameMap in images
  }

  /** The loop of `render_route`: the passes of the movements in order, each
      numbered on from the one before and drawn on the images the one before
      left; the first error stops the loop. */
  function LegsPass(movements: seq<Movement>, images: map<GameMap, Image>, sqrt: real -> real): (p: Pass)
    requires IsSqrt(sqrt) && OnMaps(movements, images)
    ensures p.images.Keys == images.Keys
  {
    if movements == [] then Pass([], images, Ok(0))
    else
      var init := movements[..|movements| - 1];
      assert OnMaps(init, images) by {
        forall leg | leg in init ensures leg in movements {
          var i :| 0 <= i < |init| && init[i] == leg;
          assert movements[i] == leg;
        }
      }
      var prev := LegsPass(init, images, sqrt);
      if prev.result.Err? then prev
      else
        var leg := LegPass(movements[|movements| - 1], prev.images, prev.result.value, sqrt);
        Pass(prev.frames + leg.frames, leg.images, leg.result)
  }

  /** `render_route` after the route is compiled: the loop over the
      movements, then the zoom-out after the last one; an empty route fails
      at `movements[-1]`. */
  function RoutePass(movements: seq<Movement>, images: map<GameMap, Image>, sqrt: real -> real): (p: Pass)
    requires IsSqrt(sqrt) && OnMaps(movements, images)
  {
    var legs := LegsPass(movements, images, sqrt);
    if legs.result.Err? then legs
    else if movements == [] then Pass(legs.frames, legs.images, Err(EmptyRoute))
    else
      var last := movements[|movements| - 1];
      assert last in movements;
      var zoom := ZoomPass(last, legs.images, legs.result.value, sqrt);
      Pass(legs.frames + zoom.frames, legs.images, zoom.result)
  }

  /** A pass of the loop keeps the output numbered 0, 1, ...; when it
      completes it has added the frames of its phase and hands on their
      number. */
  lemma LegPassNumbered(before: seq<Frame>, movement: Movement, images: map<GameMap, Image>, sqrt: real -> real)
    requires IsSqrt(sqrt) && movement.start.gameMap in images && movement.end.gameMap in images
    requires Numbered(before, Extension)
    ensures var p := LegPass(movement, images, |before|, sqrt);
            Numbered(before + p.frames, Extension) &&
            (p.result.Ok? ==> p.result.value == |before| + |p.frames| && |p.frames| == PhaseFrameCount(movement, sqrt))
  {
    var p := LegPass(movement, images, |before|, sqrt);
    var s, e := movement.start.gameMap, movement.end.gameMap;
    if s != e {
      var c1 := s.GetCropAtPosition(movement.start.position, (FrameSide, FrameSide));
      var c2 := e.GetCropAtPosition(movement.end.position, (FrameSide, FrameSide));
      if c1.Ok? && c2.Ok? {
        var pictures := FadePictures(Cropped(images[s], c1.value), Cropped(images[e], c2.value), FadeCount(FrameRate));
        PhaseNumbered(before, pictures, Extension, before + p.frames);
        PhaseCount(before, pictures, Extension, before + p.frames, p.result);
      } else {
        assert before + p.frames == before;
      }
    } else if 0.0 < WalkSpeed(movement, FrameRate) {
      var pictures := WalkPictures(movement, images[s], FrameRate, sqrt);
      PhaseNumbered(before, pictures, Extension, before + p.frames);
      PhaseCount(before, pictures, Extension, before + p.frames, p.result);
    } else {
      assert before + p.frames == before;
    }
  }

  /** A cross-fade saves only blends and leaves every image as it was; a
      walk saves only crops of a picture with the arrow pasted. */
  lemma LegPassPictures(movement: Movement, images: map<GameMap, Image>, index: int, sqrt: real -> real, i: nat)
    requires IsSqrt(sqrt) && movement.start.gameMap in images && movement.end.gameMap in images
    requires i < |LegPass(movement, images, index, sqrt).frames|
    ensures var picture := LegPass(movement, images, index, sqrt).frames[i].picture;
            (movement.start.gameMap != movement.end.gameMap ==>
               picture.Blended? && LegPass(movement, images, index, sqrt).images == images) &&
            (movement.start.gameMap == movement.end.gameMap ==> picture.Cropped? && picture.base.Arrow?)
  {
    var s, e := movement.start.gameMap, movement.end.gameMap;
    if s != e {
      var c1 := s.GetCropAtPosition(movement.start.position, (FrameSide, FrameSide));
      var c2 := e.GetCropAtPosition(movement.end.position, (FrameSide, FrameSide));
      var pictures := FadePictures(Cropped(images[s], c1.value), Cropped(images[e], c2.value), FadeCount(FrameRate));
      RunPictures(pictures, index, Extension, |pictures|);
      RunCount(pictures, index, Extension, |pictures|);
      assert RunSteps(pictures, index, Extension, |pictures|).frames[i].picture == pictures[i].value;
      FadePictureAt(Cropped(images[s], c1.value), Cropped(images[e], c2.value), FadeCount(FrameRate), i);
    } else {
      var points := WalkPoints(movement, FrameRate, sqrt);
      var pictures := WalkPictures(movement, images[s], FrameRate, sqrt);
      RunPictures(pictures, index, Extension, |pictures|);
      WalkPictureAt(FrameCrop(s), images[s], movement.start.position, movement.end.position,
                    movement.movementType.colourCode, points, i);
    }
  }

  /** The zoom-out keeps the output numbered and, when it completes, adds
      its frames and hands on their number. */
  lemma ZoomPassNumbered(before: seq<Frame>, lastMovement: Movement, images: map<GameMap, Image>, sqrt: real -> real)
    requires IsSqrt(sqrt) && lastMovement.end.gameMap in images && Numbered(before, Extension)
    ensures var p := ZoomPass(lastMovement, images, |before|, sqrt);
            Numbered(before + p.frames, Extension) &&
            (p.result.Ok? ==> p.result.value == |before| + |p.frames| && |p.frames| == ZoomFrameCount(lastMovement, sqrt))
  {
    var p := ZoomPass(lastMovement, images, |before|, sqrt);
    if 0.0 < ZoomSpeed(lastMovement, FrameRate) {
      ZoomRunNumbered(before, lastMovement, images[lastMovement.end.gameMap], sqrt);
    } else {
      assert before + p.frames == before;
    }
  }

  lemma ZoomRunNumbered(before: seq<Frame>, lastMovement: Movement, image: Image, sqrt: real -> real)
    requires IsSqrt(sqrt) && 0.0 < ZoomSpeed(lastMovement, FrameRate) && Numbered(before, Extension)
    ensures var run := ZoomRun(lastMovement, image, |before|, sqrt);
            Numbered(before + run.frames, Extension) &&
            (run.result.Ok? ==> run.result.value == |before| + |run.frames| &&
                                |run.frames| == |ZoomPoints(lastMovement, FrameRate, sqrt)|)
  {
    var pictures := ZoomPictures(lastMovement, image, FrameRate, sqrt);
    var run := RunSteps(pictures, |before|, Extension, |pictures|);
    PhaseNumbered(before, pictures, Extension, before + run.frames);
    PhaseCount(before, pictures, Extension, before + run.frames, run.result);
  }

  /** The loop numbers its frames 0, 1, ... across all movements and, when it
      completes, hands on how many it saved: one phase's worth per movement. */
  lemma {:induction false} LegsPassNumbered(movements: seq<Movement>, images: map<GameMap, Image>, sqrt: real -> real)
    requires IsSqrt(sqrt) && OnMaps(movements, images)
    ensures var p := LegsPass(movements, images, sqrt);
            Numbered(p.frames, Extension) &&
            (p.result.Ok? ==> p.result.value == |p.frames| && |p.frames| == MovementFrameCount(movements, sqrt))
  {
    if movements != [] {
      var init := movements[..|movements| - 1];
      var last := movements[|movements| - 1];
      assert OnMaps(init, images) by {
        forall leg | leg in init ensures leg in movements {
          var i :| 0 <= i < |init| && init[i] == leg;
          assert movements[i] == leg;
        }
      }
      LegsPassNumbered(init, images, sqrt);
      var prev := LegsPass(init, images, sqrt);
      if prev.result.Ok? {
        assert last in movements;
        LegPassNumbered(prev.frames, last, prev.images, sqrt);
      }
    }
  }

  /** Once a movement's pass has failed, the later movements add nothing. */
  lemma {:induction false} LegsPassStopped(movements: seq<Movement>, images: map<GameMap, Image>, sqrt: real -> real,
                                           k: nat)
    requires IsSqrt(sqrt) && OnMaps(movements, images) && k <= |movements|
    requires OnMaps(movements[..k], images) && LegsPass(movements[..k], images, sqrt).result.Err?
    ensures LegsPass(movements, images, sqrt) == LegsPass(movements[..k], images, sqrt)
    decreases |movements|
  {
    if k < |movements| {
      var init := movements[..|movements| - 1];
      assert OnMaps(init, images) by {
        forall leg | leg in init ensures leg in movements {
          var i :| 0 <= i < |init| && init[i] == leg;
          assert movements[i] == leg;
        }
      }
      assert init[..k] == movements[..k];
      LegsPassStopped(init, images, sqrt, k);
    } else {
      assert movements[..k] == movements;
    }
  }

  /** The loop after one more movement: the pass of that movement, run on
      from where the loop so far left off. */
  lemma LegsPassStep(movements: seq<Movement>, images: map<GameMap, Image>, sqrt: real -> real, j: nat)
    requires IsSqrt(sqrt) && OnMaps(movements, images) && j < |movements|
    requires OnMaps(movements[..j], images) && LegsPass(movements[..j], images, sqrt).result.Ok?
    ensures OnMaps(movements[..j + 1], images)
    ensures var prev := LegsPass(movements[..j], images, sqrt);
            movements[j].start.gameMap in prev.images && movements[j].end.gameMap in prev.images &&
            var leg := LegPass(movements[j], prev.images, prev.result.value, sqrt);
            LegsPass(movements[..j + 1], images, sqrt) == Pass(prev.frames + leg.frames, leg.images, leg.result)
  {
    assert movements[j] in movements;
    assert movements[..j + 1][..j] == movements[..j] && movements[..j + 1][j] == movements[j];
    assert OnMaps(movements[..j + 1], images);
  }

  /** A render numbers its frames 0, 1, ... with no gaps or repeats; an
      empty route saves nothing and fails; a completed render saves one
      phase per movement and the zoom-out, and hands on the total. */
  lemma RoutePassNumbered(movements: seq<Movement>, images: map<GameMap, Image>, sqrt: real -> real)
    requires IsSqrt(sqrt) && OnMaps(movements, images)
    ensures var p := RoutePass(movements, images, sqrt);
            Numbered(p.frames, Extension) &&
            (movements == [] ==> p == Pass([], images, Err(EmptyRoute))) &&
            (p.result.Ok? ==>
               movements != [] && p.result.value == |p.frames| &&
               |p.frames| == MovementFrameCount(movements, sqrt) + ZoomFrameCount(movements[|movements| - 1], sqrt))
  {
    LegsPassNumbered(movements, images, sqrt);
    var legs := LegsPass(movements, images, sqrt);
    if legs.result.Ok? && movements != [] {
      var last := movements[|movements| - 1];
      assert last in movements;
      ZoomPassNumbered(legs.frames, last, legs.images, sqrt);
    }
  }

  /** The images of the given maps. */
  function ImagesOf(maps: seq<GameMap>): (r: map<GameMap, Image>)
    reads maps
    ensures r.Keys == set m | m in maps
    ensures forall m :: m in r ==> r[m] == m.image
  {
    map m | m in maps :: m.image
  }

  /** The renderer of one game, and the frames it has saved to the output
      directory, in the order it saved them. */
  class GameRenderer {
    const game: Game
    var written: seq<Frame>

    constructor (game: Game)
      ensures this.game == game && written == []
    {
      this.game := game;
      written := [];
    }

    /** Saves step `k`'s picture under frame number `index`, or stops the
        phase with the picture's error: one step of `RunSteps`. */
    method SaveFrame(ghost pictures: seq<Result<Image>>, currentIndex: int, extension: string, ghost k: nat,
                     ghost before: seq<Frame>, index: int, picture: Result<Image>) returns (failure: Option<Error>)
      requires k < |pictures| && RunSteps(pictures, currentIndex, extension, k).result == Ok(index)
      requires 0 <= index <= MaxFrameIndex && pictures[k] == picture
      requires written == before + RunSteps(pictures, currentIndex, extension, k).frames
      modifies this`written
      ensures RunSteps(pictures, currentIndex, extension, k + 1).result
              == if failure == None then Ok(index + 1) else Err(failure.value)
      ensures RunSteps(pictures, currentIndex, extension, k + 1).reached
              == RunSteps(pictures, currentIndex, extension, k).reached + 1
      ensures written == before + RunSteps(pictures, currentIndex, extension, k + 1).frames
    {
      RunAdvance(pictures, currentIndex, extension, k, index);
      if picture.Err? {
        return Some(picture.error);
      }
      var frame := Frame(index, extension, picture.value);
      AppendAssoc(before, RunSteps(pictures, currentIndex, extension, k).frames, [frame]);
      written := written + [frame];
      return None;
    }

    /** `render_movement`: walks the points between the ends, saving the
        cropped trail with the arrow for each, and stores the trail in the
        map image at the last point. */
    method RenderMovement(movement: Movement, currentIndex: int, frameRate: int, extension: string,
                          sqrt: real -> real) returns (r: Result<int>)
      requires 0 < frameRate && IsSqrt(sqrt)
      modifies this`written, movement.start.gameMap`image
      ensures WalkSpeed(movement, frameRate) <= 0.0 ==>
                r == Err(NonPositiveSpeed) && written == old(written) &&
                movement.start.gameMap.image == old(movement.start.gameMap.image)
      ensures 0.0 < WalkSpeed(movement, frameRate) ==>
                var pictures := WalkPictures(movement, old(movement.start.gameMap.image), frameRate, sqrt);
                var run := RunSteps(pictures, currentIndex, extension, |pictures|);
                written == old(written) + run.frames && r == run.result &&
                movement.start.gameMap.image
                == TrailImage(WalkPoints(movement, frameRate, sqrt), run.reached, old(movement.start.gameMap.image),
                              movement.start.position, movement.movementType.colourCode,
                              old(movement.start.gameMap.image))
    {
      var movementSpeed := WalkSpeed(movement, frameRate);
      if movementSpeed <= 0.0 {
        return Err(NonPositiveSpeed);
      }
      var points := WalkPoints(movement, frameRate, sqrt);
      r := WalkAlong(FrameCrop(movement.start.gameMap), movement.start.gameMap, movement.start.gameMap.image,
                     movement.start.position, movement.end.position, movement.movementType.colourCode, points,
                     currentIndex, extension);
    }

    /** The loop of `render_movement` over the points of a walk from `from`
        towards `to`: each point's trail saved as a frame, and the trail to
        the last point stored in the map image. */
    method WalkAlong(cropAt: Position2D -> Result<Box>, gameMap: GameMap, baseImage: Image, from: Position2D,
                     to: Position2D, colour: string, points: seq<Position2D>, currentIndex: int, extension: string)
      returns (r: Result<int>)
      requires 1 <= |points| && gameMap.image == baseImage
      modifies this`written, gameMap`image
      ensures var run := RunSteps(PicturesAlong(WalkStep(cropAt, baseImage, from, to, colour), points),
                                  currentIndex, extension, |points|);
              written == old(written) + run.frames && r == run.result &&
              gameMap.image == TrailImage(points, run.reached, baseImage, from, colour, baseImage)
    {
      ghost var pictures := PicturesAlong(WalkStep(cropAt, baseImage, from, to, colour), points);
      ghost var before := written;
      var index := currentIndex;
      var failure: Option<Error> := None;
      var k := 0;
      while k < |points| && failure == None
        invariant 0 <= k <= |points|
        invariant RunSteps(pictures, currentIndex, extension, k).result
                  == if failure == None then Ok(index) else Err(failure.value)
        invariant written == before + RunSteps(pictures, currentIndex, extension, k).frames
        invariant gameMap.image
                  == TrailImage(points, RunSteps(pictures, currentIndex, extension, k).reached, baseImage, from,
                                colour, baseImage)
        invariant failure == None ==> RunSteps(pictures, currentIndex, extension, k).reached == k
      {
        if !(0 <= index <= MaxFrameIndex) {
          RunCeiling(pictures, currentIndex, extension, k, index);
          failure := Some(FrameIndexCeiling(index));
        } else {
          failure := WalkFrame(cropAt, gameMap, baseImage, from, to, colour, points, k, currentIndex, extension,
                               pictures, before, index);
          index := index + 1;
        }
        k := k + 1;
      }
      if failure != None {
        RunStopped(pictures, currentIndex, extension, k, |points|);
        return Err(failure.value);
      }
      return Ok(index);
    }

    /** One point of the walk loop: the trail to `points[k]` drawn on a copy
        of the base image, stored in the map image when this is the last
        point, then the arrow pasted and the frame cropped and saved. */
    method WalkFrame(cropAt: Position2D -> Result<Box>, gameMap: GameMap, baseImage: Image, from: Position2D,
                     to: Position2D, colour: string, points: seq<Position2D>, k: nat, currentIndex: int,
                     extension: string, ghost pictures: seq<Result<Image>>, ghost before: seq<Frame>, index: int)
      returns (failure: Option<Error>)
      requires k < |points| && pictures == PicturesAlong(WalkStep(cropAt, baseImage, from, to, colour), points)
      requires RunSteps(pictures, currentIndex, extension, k).result == Ok(index)
      requires RunSteps(pictures, currentIndex, extension, k).reached == k && 0 <= index <= MaxFrameIndex
      requires written == before + RunSteps(pictures, currentIndex, extension, k).frames
      requires gameMap.image == TrailImage(points, k, baseImage, from, colour, baseImage)
      modifies this`written, gameMap`image
      ensures RunSteps(pictures, currentIndex, extension, k + 1).result
              == if failure == None then Ok(index + 1) else Err(failure.value)
      ensures RunSteps(pictures, currentIndex, extension, k + 1).reached == k + 1
      ensures written == before + RunSteps(pictures, currentIndex, extension, k + 1).frames
      ensures gameMap.image == TrailImage(points, k + 1, baseImage, from, colour, baseImage)
    {
      InPrefixStep(points, k, points[|points| - 1]);
      var im := Line(baseImage, from, points[k], colour);
      if points[k] == points[|points| - 1] {
        gameMap.image := im;
      }
      var arrowed := Arrow(im, from, to, points[k]);
      var crop := cropAt(points[k]);
      var picture := if crop.Err? then Err(crop.error) else Ok(Cropped(arrowed, crop.value));
      WalkPictureAt(cropAt, baseImage, from, to, colour, points, k);
      failure := SaveFrame(pictures, currentIndex, extension, k, before, index, picture);
    }

    /** `render_map_transition`: a cross-fade from the crop around the start
        on its map to the crop around the end on the other map. */
    method RenderMapTransition(movement: Movement, currentIndex: int, frameRate: nat, extension: string)
      returns (r: Result<int>)
      modifies this`written
      ensures var c1 := movement.start.gameMap.GetCropAtPosition(movement.start.position, (FrameSide, FrameSide));
              var c2 := movement.end.gameMap.GetCropAtPosition(movement.end.position, (FrameSide, FrameSide));
              (c1.Err? ==> r == Err(c1.error) && written == old(written)) &&
              (c1.Ok? && c2.Err? ==> r == Err(c2.error) && written == old(written)) &&
              (c1.Ok? && c2.Ok? ==>
                 var pictures := FadePictures(Cropped(movement.start.gameMap.image, c1.value),
                                              Cropped(movement.end.gameMap.image, c2.value), FadeCount(frameRate));
                 var run := RunSteps(pictures, currentIndex, extension, |pictures|);
                 written == old(written) + run.frames && r == run.result)
    {
      var startPoint, endPoint := movement.start.position, movement.end.position;
      var baseImage := movement.start.gameMap.image;
      var overlayImage := movement.end.gameMap.image;
      var baseBox := movement.start.gameMap.GetCropAtPosition(startPoint, (FrameSide, FrameSide));
      if baseBox.Err? {
        return Err(baseBox.error);
      }
      var overlayBox := movement.end.gameMap.GetCropAtPosition(endPoint, (FrameSide, FrameSide));
      if overlayBox.Err? {
        return Err(overlayBox.error);
      }
      var baseCrop := Cropped(baseImage, baseBox.value);
      var overlayCrop := Cropped(overlayImage, overlayBox.value);
      r := FadeAlong(baseCrop, overlayCrop, FadeCount(frameRate), currentIndex, extension);
    }

    /** The loop of `render_map_transition`: frame `i` of `frameCount` blends
        the two crops with weight `i / frameCount` on the second. */
    method FadeAlong(baseCrop: Image, overlayCrop: Image, frameCount: nat, currentIndex: int, extension: string)
      returns (r: Result<int>)
      modifies this`written
      ensures var pictures := FadePictures(baseCrop, overlayCrop, frameCount);
              var run := RunSteps(pictures, currentIndex, extension, |pictures|);
              written == old(written) + run.frames && r == run.result
    {
      ghost var pictures := FadePictures(baseCrop, overlayCrop, frameCount);
      ghost var before := written;
      var index := currentIndex;
      var failure: Option<Error> := None;
      var i := 0;
      while i < frameCount && failure == None
        invariant 0 <= i <= frameCount
        invariant RunSteps(pictures, currentIndex, extension, i).result
                  == if failure == None then Ok(index) else Err(failure.value)
        invariant written == before + RunSteps(pictures, currentIndex, extension, i).frames
      {
        var final := Blended(baseCrop, overlayCrop, i as real / frameCount as real);
        if !(0 <= index <= MaxFrameIndex) {
          RunCeiling(pictures, currentIndex, extension, i, index);
          failure := Some(FrameIndexCeiling(index));
        } else {
          index := index + 1;
          FadePictureAt(baseCrop, overlayCrop, frameCount, i);
          failure := SaveFrame(pictures, currentIndex, extension, i, before, index - 1, Ok(final));
        }
        i := i + 1;
      }
      if failure != None {
        RunStopped(pictures, currentIndex, extension, i, frameCount);
        return Err(failure.value);
      }
      return Ok(index);
    }

    /** `render_final_zoom_out`: from the end of the last movement to the
        middle of its map, each frame a crop growing from frame size to the
        whole image, scaled to frame size. */
    method RenderFinalZoomOut(lastMovement: Movement, currentIndex: int, frameRate: int, extension: string,
                              sqrt: real -> real) returns (r: Result<int>)
      requires 0 < frameRate && IsSqrt(sqrt)
      modifies this`written
      ensures ZoomSpeed(lastMovement, frameRate) <= 0.0 ==> r == Err(NonPositiveSpeed) && written == old(written)
      ensures 0.0 < ZoomSpeed(lastMovement, frameRate) ==>
                var pictures := ZoomPictures(lastMovement, lastMovement.end.gameMap.image, frameRate, sqrt);
                var run := RunSteps(pictures, currentIndex, extension, |pictures|);
                written == old(written) + run.frames && r == run.result
    {
      var gameMap := lastMovement.end.gameMap;
      var movementSpeed := ZoomSpeed(lastMovement, frameRate);
      if movementSpeed <= 0.0 {
        return Err(NonPositiveSpeed);
      }
      var start := lastMovement.end.position;
      var end := Middle(gameMap);
      var points := ZoomPoints(lastMovement, frameRate, sqrt);
      var baseImage := gameMap.image;
      r := SaveAlong(ZoomStep(gameMap, baseImage, start, end, sqrt), points, currentIndex, extension);
    }

    /** A loop that saves, for each of `points`, the frame `picture` makes
        at it, numbered on from `currentIndex`. */
    method SaveAlong(picture: Position2D -> Result<Image>, points: seq<Position2D>, currentIndex: int,
                     extension: string) returns (r: Result<int>)
      modifies this`written
      ensures var run := RunSteps(PicturesAlong(picture, points), currentIndex, extension, |points|);
              written == old(written) + run.frames && r == run.result
    {
      ghost var pictures := PicturesAlong(picture, points);
      ghost var before := written;
      var index := currentIndex;
      var failure: Option<Error> := None;
      var k := 0;
      while k < |points| && failure == None
        invariant 0 <= k <= |points|
        invariant RunSteps(pictures, currentIndex, extension, k).result
                  == if failure == None then Ok(index) else Err(failure.value)
        invariant written == before + RunSteps(pictures, currentIndex, extension, k).frames
      {
        if !(0 <= index <= MaxFrameIndex) {
          RunCeiling(pictures, currentIndex, extension, k, index);
          failure := Some(FrameIndexCeiling(index));
        } else {
          index := index + 1;
          failure := SaveFrame(pictures, currentIndex, extension, k, before, index - 1, picture(points[k]));
        }
        k := k + 1;
      }
      if failure != None {
        RunStopped(pictures, currentIndex, extension, k, |points|);
        return Err(failure.value);
      }
      return Ok(index);
    }

    /** One pass of the loop of `render_route`: a cross-fade for a movement
        that changes maps, a walk otherwise, on the maps' current images
        `images`; the pass's frames are saved and a walk leaves its trail in
        its map's image. */
    method RenderLeg(movement: Movement, index: int, ghost images: map<GameMap, Image>, sqrt: real -> real)
      returns (next: Result<int>)
      requires IsSqrt(sqrt) && movement.start.gameMap in images && movement.end.gameMap in images
      requires forall m :: m in images ==> m.image == images[m]
      modifies this`written, movement.start.gameMap`image
      ensures var p := LegPass(movement, images, index, sqrt);
              written == old(written) + p.frames && next == p.result &&
              forall m :: m in images ==> m.image == p.images[m]
    {
      if movement.start.gameMap != movement.end.gameMap {
        next := RenderMapTransition(movement, index, FrameRate, Extension);
      } else {
        next := RenderMovement(movement, index, FrameRate, Extension, sqrt);
      }
    }

    /** The zoom-out that ends `render_route`, over the current image of the
        last location's map. */
    method RenderEnding(lastMovement: Movement, index: int, ghost images: map<GameMap, Image>, sqrt: real -> real)
      returns (r: Result<int>)
      requires IsSqrt(sqrt) && lastMovement.end.gameMap in images
      requires forall m :: m in images ==> m.image == images[m]
      modifies this`written
      ensures var p := ZoomPass(lastMovement, images, index, sqrt);
              written == old(written) + p.frames && r == p.result
    {
      r := RenderFinalZoomOut(lastMovement, index, FrameRate, Extension, sqrt);
    }

    /** The loop of `render_route` over the movements of a route, from frame
        0, up to the first pass that fails. Only the maps' images change. */
    method RenderLegs(movements: seq<Movement>, ghost images: map<GameMap, Image>, sqrt: real -> real)
      returns (r: Result<int>)
      requires IsSqrt(sqrt) && written == [] && OnMaps(movements, images)
      requires forall m :: m in images <==> m in game.gameMaps
      requires forall m :: m in images ==> m.image == images[m]
      modifies this`written, game.gameMaps`image
      ensures var p := LegsPass(movements, images, sqrt);
              written == p.frames && r == p.result && forall m :: m in images ==> m.image == p.images[m]
    {
      var index := 0;
      var j := 0;
      while j < |movements|
        invariant 0 <= j <= |movements| && OnMaps(movements[..j], images)
        invariant LegsPass(movements[..j], images, sqrt).result == Ok(index)
        invariant written == LegsPass(movements[..j], images, sqrt).frames
        invariant forall m :: m in images ==> m.image == LegsPass(movements[..j], images, sqrt).images[m]
      {
        var movement := movements[j];
        LegsPassStep(movements, images, sqrt, j);
        ghost var legImages := LegsPass(movements[..j], images, sqrt).images;
        var next := RenderLeg(movement, index, legImages, sqrt);
        if next.Err? {
          LegsPassStopped(movements, images, sqrt, j + 1);
          return next;
        }
        index := next.value;
        j := j + 1;
      }
      assert movements[..j] == movements;
      r := Ok(index);
    }

    /** `render_route` after the route is compiled: the loop over its
        movements, then the zoom-out after the last one; a route with no
        movements fails there. Only the maps' images change. */
    method RenderMovements(movements: seq<Movement>, ghost images: map<GameMap, Image>, sqrt: real -> real)
      returns (r: Result<int>)
      requires IsSqrt(sqrt) && written == [] && OnMaps(movements, images)
      requires forall m :: m in images <==> m in game.gameMaps
      requires forall m :: m in images ==> m.image == images[m]
      modifies this`written, game.gameMaps`image
      ensures var p := RoutePass(movements, images, sqrt);
              written == p.frames && r == p.result && forall m :: m in images ==> m.image == p.images[m]
    {
      r := RenderLegs(movements, images, sqrt);
      if r.Err? {
        return;
      }
      if movements == [] {
        return Err(EmptyRoute);
      }
      ghost var legImages := LegsPass(movements, images, sqrt).images;
      assert movements[|movements| - 1] in movements;
      r := RenderEnding(movements[|movements| - 1], r.value, legImages, sqrt);
    }

    /** `render_route` on the lines of a route file: the output directory is
        emptied, a route that does not compile fails with its error, and
        otherwise the route is rendered from the maps' current images. The
        maps' location tables are left as they were. */
    method RenderRoute(lines: seq<string>, ops: StringOps, sqrt: real -> real) returns (r: Result<int>)
      requires game.Valid() && IsSqrt(sqrt)
      modifies this`written, game.gameMaps`image
      ensures game.Valid()
      ensures forall m :: m in game.gameMaps ==> unchanged(m`locationMap, m`slugs)
      ensures var route := old(CompileRoute(game.gameMaps, game.movementTypes, lines, ops));
              route.Err? ==> r == Err(route.error) && written == []
      ensures var route := old(CompileRoute(game.gameMaps, game.movementTypes, lines, ops));
              route.Ok? ==>
                OnMaps(route.value, old(ImagesOf(game.gameMaps))) &&
                var p := RoutePass(route.value, old(ImagesOf(game.gameMaps)), sqrt);
                written == p.frames && r == p.result && forall m :: m in game.gameMaps ==> m.image == p.images[m]
    {
      ghost var route := CompileRoute(game.gameMaps, game.movementTypes, lines, ops);
      ghost var images := ImagesOf(game.gameMaps);
      written := [];
      var movements := game.ParseRouteFile(lines, ops);
      assert movements == route;
      if movements.Err? {
        return Err(movements.error);
      }
      r := RenderMovements(movements.value, images, sqrt);
      game.ImagesKeepValid();
    }
  }
}
