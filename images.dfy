/** Map images and output frames, as terms that record how they were made.

    The engine only ever opens a map image, draws a line on a copy, pastes the
    arrow, crops, blends two crops and resizes; none of its decisions depends
    on pixel values. So an image is the log of those operations: two images
    are equal exactly when they were made the same way from the same files. */
module Images {
  import opened Vectors

  /** A crop window `(left, top, right, bottom)`, as PIL's `Image.crop` takes it. */
  datatype Box = Box(left: int, top: int, right: int, bottom: int)

  datatype Image =
    // `Image.open(path)` of a map image `width` by `height` pixels
    | Loaded(file: string, width: nat, height: nat)
    // `draw.line((from.x, from.y, to.x, to.y), fill=colour)` on a copy of `base`
    | Line(base: Image, from: Position2D, to: Position2D, colour: string)
    // the direction arrow pasted on `base` at `at`, rotated along `start` to `end`
    | Arrow(base: Image, start: Position2D, end: Position2D, at: Position2D)
    | Cropped(base: Image, box: Box)
    // `Image.blend(first, second, alpha)`
    | Blended(first: Image, second: Image, alpha: real)
    | Resized(base: Image, width: nat, height: nat)
}
