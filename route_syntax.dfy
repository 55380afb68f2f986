/** The two route-file line formats, as Python's `re.match` reads them:
    `^(?P<movement>.+?) to (?P<location>.+?)$` (the function `parse_route_str`,
    written out identically in `wanderer/game.py`, `main.py`,
    `src/__init__.py` and `wanderer/__init__.py`) and
    `^start in (?P<location>.+)$` (the first line of a route file).

    `.` matches any character except a newline, and `$` matches at the end of
    the text or just before a newline that ends it. */
module RouteSyntax {
  import opened Results

  predicate NoNewline(s: string) {
    forall i :: 0 <= i < |s| ==> s[i] != '\n'
  }

  /** The text `$` can stop before: all of `s`, or `s` less one final newline. */
  function DropFinalNewline(s: string): (t: string)
    ensures t == s || s == t + "\n"
    ensures |s| > 0 && s[|s| - 1] == '\n' ==> s == t + "\n"
  {
    if |s| > 0 && s[|s| - 1] == '\n' then s[..|s| - 1] else s
  }

  /** `" to "` occurs at index `m` with at least one character on each side. */
  predicate SplitsAt(t: string, m: int) {
    1 <= m && m + 5 <= |t| && t[m..m + 4] == " to "
  }

  /** The leftmost split point at or after `from`: the lazy `.+?` tries the
      shortest movement first. */
  function FirstSplit(t: string, from: nat): (r: Option<nat>)
    ensures r.Some? ==> from <= r.value && SplitsAt(t, r.value)
    ensures r.Some? ==> forall k :: from <= k < r.value ==> !SplitsAt(t, k)
    ensures r.None? ==> forall k :: from <= k ==> !SplitsAt(t, k)
    decreases |t| - from
  {
    if |t| < from + 5 then None
    else if SplitsAt(t, from) then Some(from)
    else FirstSplit(t, from + 1)
  }

  /** `parse_route_str`: a ValueError when the pattern does not match. On a
      match, movement + " to " + location is the line (less a final newline),
      both parts are non-empty, and no shorter movement would split the line. */
  function ParseRouteStr(s: string): (r: Result<(string, string)>)
    ensures r.Ok? <==> NoNewline(DropFinalNewline(s)) && exists m :: SplitsAt(DropFinalNewline(s), m)
    ensures r.Err? ==> r.error == RouteLineMismatch(s)
    ensures r.Ok? ==> r.value.0 + " to " + r.value.1 == DropFinalNewline(s)
    ensures r.Ok? ==> 1 <= |r.value.0| && 1 <= |r.value.1|
    ensures r.Ok? ==> forall k :: 0 <= k < |r.value.0| ==> !SplitsAt(DropFinalNewline(s), k)
  {
    var t := DropFinalNewline(s);
    if !NoNewline(t) then Err(RouteLineMismatch(s))
    else
      match FirstSplit(t, 0)
      case None => Err(RouteLineMismatch(s))
      case Some(m) =>
        assert t[..m] + " to " + t[m + 4..] == t by {
          assert t == t[..m] + t[m..m + 4] + t[m + 4..];
        }
        Ok((t[..m], t[m + 4..]))
  }

  /** Writing a route line and parsing it back gives its two parts, for any
      location (which may itself contain " to ") and any movement name without
      a space. */
  lemma RouteLineRoundTrip(movement: string, location: string)
    requires 1 <= |movement| && 1 <= |location|
    requires NoNewline(movement) && NoNewline(location)
    requires forall i :: 0 <= i < |movement| ==> movement[i] != ' '
    ensures ParseRouteStr(movement + " to " + location) == Ok((movement, location))
  {
    var t := movement + " to " + location;
    var n := |movement|;
    assert t[..n] == movement && t[n..n + 4] == " to " && t[n + 4..] == location;
    assert NoNewline(t) by {
      forall i | 0 <= i < |t| ensures t[i] != '\n' {
        if i < n { assert t[i] == movement[i]; }
        else if i >= n + 4 { assert t[i] == location[i - n - 4]; }
      }
    }
    assert DropFinalNewline(t) == t;
    assert SplitsAt(t, n);
    forall k | 0 <= k < n ensures !SplitsAt(t, k) {
      assert t[k] == movement[k];
    }
  }

  /** `re.match("^start in (?P<location>.+)$", line)`: the location is all
      that follows the prefix; a line that does not match has no location
      (the source then fails on `None.group`). */
  function ParseStartLine(s: string): (r: Result<string>)
    ensures r.Ok? <==> var t := DropFinalNewline(s);
                       10 <= |t| && t[..9] == "start in " && NoNewline(t[9..])
    ensures r.Ok? ==> "start in " + r.value == DropFinalNewline(s) && 1 <= |r.value|
    ensures r.Err? ==> r.error == StartLineMismatch(s)
  {
    var t := DropFinalNewline(s);
    if 10 <= |t| && t[..9] == "start in " && NoNewline(t[9..]) then
      assert t == t[..9] + t[9..];
      Ok(t[9..])
    else Err(StartLineMismatch(s))
  }

  /** Formatting a start line and parsing it back gives the location. */
  lemma StartLineRoundTrip(location: string)
    requires 1 <= |location| && NoNewline(location)
    ensures ParseStartLine("start in " + location) == Ok(location)
  {
    var t := "start in " + location;
    assert t[..9] == "start in " && t[9..] == location;
  }

  /** The lines that are not blank once stripped, in order. */
  function NonBlank(lines: seq<string>, strip: string -> string): (r: seq<string>)
    ensures |r| <= |lines|
    ensures forall l :: l in r ==> l != ""
  {
    if lines == [] then []
    else if strip(lines[0]) == "" then NonBlank(lines[1..], strip)
    else [strip(lines[0])] + NonBlank(lines[1..], strip)
  }
}
