/** Failures of the route animation engine and the datatypes that carry them.

    The Python code reports every failure by raising (ValueError from its own
    checks, IndexError, AttributeError and ZeroDivisionError from the runtime,
    AssertionError from `assert`); each one aborts the render. Here each is an
    `Error` value inside a `Result`. */
module Results {

  datatype Option<+T> = None | Some(value: T)

  datatype Error =
    // a location name whose slug is already a key of the map's table
    | DuplicateLocation(name: string)
    // more than one map has an exact (slug) hit for the name
    | AmbiguousLocation(name: string)
    // no exact hit; `suggestions` are the fuzzy matches named in "Did you mean ...?"
    | LocationNotFound(name: string, suggestions: seq<string>)
    | UnknownMovementType(name: string)
    | AmbiguousMovementType(name: string)
    // a line that is not "<movement> to <location>"
    | RouteLineMismatch(line: string)
    // `lines[0]` of an empty route file
    | EmptyRouteFile
    // a first line that is not "start in <location>" (`None.group` in the source)
    | StartLineMismatch(line: string)
    // a location line that is not "<name> <x>x <y>y" (`None.group` in the source)
    | LocationLineMismatch(line: string)
    // the prototype's lookups in its name-keyed dictionary
    | UnknownStartLocation(name: string)
    | UnknownLocation(name: string)
    // a crop window larger than the map image
    | CropTooLarge(width: int, height: int)
    // the assertion `0 <= index <= 100000` on output frame numbers
    | FrameIndexCeiling(index: int)
    // the assertion `movement_speed > 0` of the interpolator
    | NonPositiveSpeed
    // the zoom ratio of a zoom-out whose start already is the map centre
    | ZeroDivision
    // `movements[-1]` of a route without movements
    | EmptyRoute
    // `config[key]` of a config entry without that key (KeyError)
    | MissingKey(key: string)
    // an assertion of a constructor (`pixels_per_second`, `speed_multiplier`)
    | InvalidArgument(what: string)

  datatype Result<+T> = Ok(value: T) | Err(error: Error)

  /** `acc` followed by the elements of `r`, or the error of `r`: the part of a
      list already built in front of the part still to come. */
  function Prepend<T>(acc: seq<T>, r: Result<seq<T>>): (p: Result<seq<T>>)
    ensures p.Ok? <==> r.Ok?
    ensures p.Ok? ==> |p.value| == |acc| + |r.value| && p.value[..|acc|] == acc && p.value[|acc|..] == r.value
    ensures p.Err? ==> p.error == r.error
  {
    match r
    case Ok(rest) => Ok(acc + rest)
    case Err(e) => Err(e)
  }

  lemma PrependEmpty<T>(r: Result<seq<T>>)
    ensures Prepend([], r) == r
  {
    if r.Ok? {
      assert [] + r.value == r.value;
    }
  }

  lemma PrependTwice<T>(acc: seq<T>, x: T, r: Result<seq<T>>)
    ensures Prepend(acc, Prepend([x], r)) == Prepend(acc + [x], r)
  {
    if r.Ok? {
      assert acc + ([x] + r.value) == (acc + [x]) + r.value;
    }
  }
}
