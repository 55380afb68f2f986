/** The first prototype, `main.py`: a location file of lines
    "<name> <x>x <y>y" read into a name-keyed table, and a route file compiled
    against that table into movements whose kind is kept as the raw text. */
module MainScript {
  import opened Results
  import opened Numbers
  import opened RouteSyntax

  /** The prototype's `Location` dataclass: pixel coordinates and a name. */
  datatype Location = Location(x: int, y: int, name: string)

  datatype Movement = Movement(start: Location, end: Location, movementType: string)

  // ---- the location line: "^(?P<name>.+?) (?P<x>[0-9]+)x +(?P<y>[0-9]+)y *$" ----

  /** Length of the run of digits in `s` from index `i`. */
  function DigitRun(s: string, i: nat): (n: nat)
    requires i <= |s|
    ensures i + n <= |s|
    decreases |s| - i
  {
    if i < |s| && IsDigit(s[i]) then 1 + DigitRun(s, i + 1) else 0
  }

  /** Length of the run of spaces in `s` from index `i`. */
  function SpaceRun(s: string, i: nat): (n: nat)
    requires i <= |s|
    ensures i + n <= |s|
    decreases |s| - i
  {
    if i < |s| && s[i] == ' ' then 1 + SpaceRun(s, i + 1) else 0
  }

  /** The digit run covers digits only and stops at a non-digit or the end. */
  lemma {:induction false} DigitRunLaws(s: string, i: nat)
    requires i <= |s|
    ensures forall k :: i <= k < i + DigitRun(s, i) ==> IsDigit(s[k])
    ensures i + DigitRun(s, i) < |s| ==> !IsDigit(s[i + DigitRun(s, i)])
    decreases |s| - i
  {
    if i < |s| && IsDigit(s[i]) {
      DigitRunLaws(s, i + 1);
    }
  }

  /** The space run covers spaces only and stops at a non-space or the end. */
  lemma {:induction false} SpaceRunLaws(s: string, i: nat)
    requires i <= |s|
    ensures forall k :: i <= k < i + SpaceRun(s, i) ==> s[k] == ' '
    ensures i + SpaceRun(s, i) < |s| ==> s[i + SpaceRun(s, i)] != ' '
    decreases |s| - i
  {
    if i < |s| && s[i] == ' ' {
      SpaceRunLaws(s, i + 1);
    }
  }

  lemma {:induction false} DigitRunIs(s: string, i: nat, n: nat)
    requires i + n <= |s|
    requires forall k :: i <= k < i + n ==> IsDigit(s[k])
    requires i + n < |s| ==> !IsDigit(s[i + n])
    ensures DigitRun(s, i) == n
    decreases n
  {
    if n > 0 {
      DigitRunIs(s, i + 1, n - 1);
    }
  }

  lemma {:induction false} SpaceRunIs(s: string, i: nat, n: nat)
    requires i + n <= |s|
    requires forall k :: i <= k < i + n ==> s[k] == ' '
    requires i + n < |s| ==> s[i + n] != ' '
    ensures SpaceRun(s, i) == n
    decreases n
  {
    if n > 0 {
      SpaceRunIs(s, i + 1, n - 1);
    }
  }

  function Spaces(k: nat): string {
    seq(k, _ => ' ')
  }

  /** What follows the name in a location line: the digits of x, the spaces
      between "x" and the digits of y, and the spaces after "y". */
  datatype Tail = Tail(x: string, gap: nat, y: string, trail: nat)

  predicate WellFormed(tl: Tail) {
    1 <= |tl.x| && AllDigits(tl.x) && 1 <= tl.gap && 1 <= |tl.y| && AllDigits(tl.y)
  }

  function TailText(tl: Tail): string {
    " " + tl.x + "x" + Spaces(tl.gap) + tl.y + "y" + Spaces(tl.trail)
  }

  /** The part of the pattern after the name, matched against all of `u`.
      Every quantifier in it is followed by a character it cannot match, so
      there is at most one way to match. */
  function ParseTail(u: string): (r: Option<Tail>) {
    if |u| < 1 || u[0] != ' ' then None
    else
      var p := 1 + DigitRun(u, 1);
      if p == 1 || p >= |u| || u[p] != 'x' then None
      else
        var q := p + 1 + SpaceRun(u, p + 1);
        if q == p + 1 then None
        else
          var e := q + DigitRun(u, q);
          if e == q || e >= |u| || u[e] != 'y' then None
          else if e + 1 + SpaceRun(u, e + 1) != |u| then None
          else Some(Tail(u[1..p], q - p - 1, u[q..e], |u| - e - 1))
  }

  /** The tail parser accepts exactly the texts of well-formed tails. */
  lemma ParseTailSound(u: string)
    requires ParseTail(u).Some?
    ensures WellFormed(ParseTail(u).value) && TailText(ParseTail(u).value) == u
  {
    var p := 1 + DigitRun(u, 1);
    var q := p + 1 + SpaceRun(u, p + 1);
    var e := q + DigitRun(u, q);
    assert ParseTail(u) == Some(Tail(u[1..p], q - p - 1, u[q..e], |u| - e - 1));
    TailRunsSound(u, p, q, e);
  }

  /** The pieces the runs of the tail parser cut out form a well-formed tail
      whose text is the whole input. */
  lemma TailRunsSound(u: string, p: nat, q: nat, e: nat)
    requires 1 < p && p + 1 < q < e < |u| && u[0] == ' ' && u[p] == 'x' && u[e] == 'y'
    requires p == 1 + DigitRun(u, 1) && q == p + 1 + SpaceRun(u, p + 1) && e == q + DigitRun(u, q)
    requires e + 1 + SpaceRun(u, e + 1) == |u|
    ensures var tl := Tail(u[1..p], q - p - 1, u[q..e], |u| - e - 1);
            WellFormed(tl) && TailText(tl) == u
  {
    DigitsUpTo(u, 1, p);
    SpacesUpTo(u, p + 1, q);
    DigitsUpTo(u, q, e);
    SpacesUpTo(u, e + 1, |u|);
    PiecesText(u, p, q, e);
  }

  /** The digit run from `i` ends at `j`, and all between is digits. */
  lemma DigitsUpTo(s: string, i: nat, j: nat)
    requires i <= |s| && j == i + DigitRun(s, i)
    ensures forall k :: i <= k < j ==> IsDigit(s[k])
  {
    DigitRunLaws(s, i);
  }

  /** The space run from `i` ends at `j`, and all between is spaces. */
  lemma SpacesUpTo(s: string, i: nat, j: nat)
    requires i <= |s| && j == i + SpaceRun(s, i)
    ensures forall k :: i <= k < j ==> s[k] == ' '
  {
    SpaceRunLaws(s, i);
  }

  /** A text laid out as " <digits>x<spaces><digits>y<spaces>" at the given
      places is the text of the well-formed tail made of those pieces. */
  lemma PiecesText(u: string, p: nat, q: nat, e: nat)
    requires 1 < p && p + 1 < q < e < |u| && u[0] == ' ' && u[p] == 'x' && u[e] == 'y'
    requires forall k :: 1 <= k < p ==> IsDigit(u[k])
    requires forall k :: q <= k < e ==> IsDigit(u[k])
    requires forall k :: p + 1 <= k < q ==> u[k] == ' '
    requires forall k :: e + 1 <= k < |u| ==> u[k] == ' '
    ensures var tl := Tail(u[1..p], q - p - 1, u[q..e], |u| - e - 1);
            WellFormed(tl) && TailText(tl) == u
  {
    var tl := Tail(u[1..p], q - p - 1, u[q..e], |u| - e - 1);
    SpacesOf(u, p + 1, q - p - 1);
    SpacesOf(u, e + 1, |u| - e - 1);
    assert u[e + 1..] == u[e + 1..|u|];
    assert AllDigits(tl.x) by {
      forall k | 0 <= k < |tl.x| ensures IsDigit(tl.x[k]) { assert tl.x[k] == u[1 + k]; }
    }
    assert AllDigits(tl.y) by {
      forall k | 0 <= k < |tl.y| ensures IsDigit(tl.y[k]) { assert tl.y[k] == u[q + k]; }
    }
    TailTextOf(u, tl, p, q, e);
  }

  lemma SpacesOf(s: string, i: nat, n: nat)
    requires i + n <= |s| && forall k :: i <= k < i + n ==> s[k] == ' '
    ensures s[i..i + n] == Spaces(n)
  {
  }

  lemma SplitTail(u: string, p: nat, q: nat, e: nat)
    requires 1 < p < q < e < |u|
    ensures u == [u[0]] + u[1..p] + [u[p]] + u[p + 1..q] + u[q..e] + [u[e]] + u[e + 1..]
  {
  }

  /** A text cut at `p`, `q` and `e` into the pieces of `tl` is the text of `tl`. */
  lemma TailTextOf(u: string, tl: Tail, p: nat, q: nat, e: nat)
    requires 1 < p < q < e < |u| && u[0] == ' ' && u[p] == 'x' && u[e] == 'y'
    requires u[1..p] == tl.x && u[p + 1..q] == Spaces(tl.gap) && u[q..e] == tl.y && u[e + 1..] == Spaces(tl.trail)
    ensures TailText(tl) == u
  {
    SplitTail(u, p, q, e);
    assert " " == [u[0]] && "x" == [u[p]] && "y" == [u[e]];
  }

  lemma ParseTailComplete(tl: Tail)
    requires WellFormed(tl)
    ensures ParseTail(TailText(tl)) == Some(tl)
  {
    var u := TailText(tl);
    var p := 1 + |tl.x|;
    var q := p + 1 + tl.gap;
    var e := q + |tl.y|;
    TailTextPieces(tl);
    assert Tail(u[1..p], q - p - 1, u[q..e], |u| - e - 1) == tl;
    ParseTailOfPieces(u, p, q, e);
  }

  /** A text with the pieces of a tail at the given places parses as that tail. */
  lemma ParseTailOfPieces(u: string, p: nat, q: nat, e: nat)
    requires 1 < p && p + 1 < q < e < |u| && u[0] == ' ' && u[p] == 'x' && u[e] == 'y'
    requires forall k :: 1 <= k < p ==> IsDigit(u[k])
    requires forall k :: q <= k < e ==> IsDigit(u[k])
    requires forall k :: p + 1 <= k < q ==> u[k] == ' '
    requires forall k :: e + 1 <= k < |u| ==> u[k] == ' '
    ensures ParseTail(u) == Some(Tail(u[1..p], q - p - 1, u[q..e], |u| - e - 1))
  {
    assert DigitRun(u, 1) == p - 1 by { DigitRunIs(u, 1, p - 1); }
    assert SpaceRun(u, p + 1) == q - p - 1 by { SpaceRunIs(u, p + 1, q - p - 1); }
    assert DigitRun(u, q) == e - q by { DigitRunIs(u, q, e - q); }
    assert SpaceRun(u, e + 1) == |u| - e - 1 by { SpaceRunIs(u, e + 1, |u| - e - 1); }
  }

  /** Where the pieces of a tail's text lie. */
  lemma TailTextPieces(tl: Tail)
    requires WellFormed(tl)
    ensures var u := TailText(tl);
            var p := 1 + |tl.x|;
            var q := p + 1 + tl.gap;
            var e := q + |tl.y|;
            |u| == e + 1 + tl.trail && u[0] == ' ' &&
            u[1..p] == tl.x && u[p] == 'x' && u[p + 1..q] == Spaces(tl.gap) &&
            u[q..e] == tl.y && u[e] == 'y' && u[e + 1..] == Spaces(tl.trail) &&
            (forall k :: 1 <= k < p ==> IsDigit(u[k])) &&
            (forall k :: q <= k < e ==> IsDigit(u[k])) &&
            (forall k :: p + 1 <= k < q ==> u[k] == ' ') &&
            (forall k :: e + 1 <= k < |u| ==> u[k] == ' ')
  {
    var u := TailText(tl);
    var p := 1 + |tl.x|;
    var q := p + 1 + tl.gap;
    var e := q + |tl.y|;
    TailTextSlices(tl);
    forall k | 1 <= k < p ensures IsDigit(u[k]) { assert u[k] == u[1..p][k - 1]; }
    forall k | q <= k < e ensures IsDigit(u[k]) { assert u[k] == u[q..e][k - q]; }
    forall k | p + 1 <= k < q ensures u[k] == ' ' { assert u[k] == u[p + 1..q][k - p - 1]; }
    forall k | e + 1 <= k < |u| ensures u[k] == ' ' { assert u[k] == u[e + 1..][k - e - 1]; }
  }

  /** The pieces of a tail's text, by position. */
  lemma TailTextSlices(tl: Tail)
    ensures var u := TailText(tl);
            var p := 1 + |tl.x|;
            var q := p + 1 + tl.gap;
            var e := q + |tl.y|;
            |u| == e + 1 + tl.trail && u[0] == ' ' &&
            u[1..p] == tl.x && u[p] == 'x' && u[p + 1..q] == Spaces(tl.gap) &&
            u[q..e] == tl.y && u[e] == 'y' && u[e + 1..] == Spaces(tl.trail)
  {
    var u := TailText(tl);
    var p := 1 + |tl.x|;
    var q := p + 1 + tl.gap;
    var e := q + |tl.y|;
    assert u[1..p] == tl.x && u[p + 1..q] == Spaces(tl.gap);
    assert u[q..e] == tl.y && u[e + 1..] == Spaces(tl.trail);
  }

  /** The lazy name `.+?` can end at `m`: it holds no newline and the rest of
      the pattern matches what follows. */
  predicate TailAt(t: string, m: int) {
    1 <= m <= |t| && NoNewline(t[..m]) && ParseTail(t[m..]).Some?
  }

  /** The shortest name length from `from` on that lets the line match. */
  function FirstTail(t: string, from: nat): (r: Option<nat>)
    ensures r.Some? ==> from <= r.value <= |t|
    decreases |t| - from
  {
    if |t| < from then None
    else if TailAt(t, from) then Some(from)
    else FirstTail(t, from + 1)
  }

  /** The search finds a name length that works, and none shorter works. */
  lemma {:induction false} FirstTailLaws(t: string, from: nat)
    ensures var r := FirstTail(t, from);
            (r.Some? ==> TailAt(t, r.value) && forall k :: from <= k < r.value ==> !TailAt(t, k)) &&
            (r.None? ==> forall k :: from <= k ==> !TailAt(t, k))
    decreases |t| - from
  {
    if from <= |t| && !TailAt(t, from) {
      FirstTailLaws(t, from + 1);
    }
  }

  /** `parse_location`: the name is the shortest prefix after which the line
      reads " <digits>x <spaces><digits>y<spaces>", and x and y are the values
      of the two digit runs. A line that does not match is an error (the
      source fails on `None.group`). */
  function ParseLocation(s: string): (r: Result<Location>)
    ensures r.Err? ==> r.error == LocationLineMismatch(s)
    ensures r.Ok? ==> 0 <= r.value.x && 0 <= r.value.y && 1 <= |r.value.name|
  {
    var t := DropFinalNewline(s);
    FirstTailLaws(t, 1);
    match FirstTail(t, 1)
    case None => Err(LocationLineMismatch(s))
    case Some(m) =>
      ParseTailSound(t[m..]);
      var tl := ParseTail(t[m..]).value;
      Ok(Location(Value(tl.x), Value(tl.y), t[..m]))
  }

  /** A line parses exactly when some name length lets the pattern match; the
      name is then the shortest such prefix, and x and y are the values of the
      digit runs of the tail that follows it. */
  lemma ParseLocationMatches(s: string)
    ensures ParseLocation(s).Ok? <==> exists m :: TailAt(DropFinalNewline(s), m)
    ensures ParseLocation(s).Ok? ==>
              var r := ParseLocation(s).value;
              var t := DropFinalNewline(s);
              var n := |r.name|;
              TailAt(t, n) && t[..n] == r.name &&
              WellFormed(ParseTail(t[n..]).value) &&
              TailText(ParseTail(t[n..]).value) == t[n..] &&
              r.x == Value(ParseTail(t[n..]).value.x) &&
              r.y == Value(ParseTail(t[n..]).value.y) &&
              forall k :: 0 <= k < n ==> !TailAt(t, k)
  {
    var t := DropFinalNewline(s);
    FirstTailLaws(t, 1);
    if FirstTail(t, 1).Some? {
      ParseTailSound(t[FirstTail(t, 1).value..]);
    }
  }

  lemma {:induction false} FirstTailIs(t: string, from: nat, n: nat)
    requires from <= n && TailAt(t, n)
    requires forall k :: from <= k < n ==> !TailAt(t, k)
    ensures FirstTail(t, from) == Some(n)
    decreases n - from
  {
    if from < n {
      FirstTailIs(t, from + 1, n);
    }
  }

  /** A location line as it is written: "<name> <x>x <y>y". */
  function FormatLocation(l: Location): string
    requires 0 <= l.x && 0 <= l.y
  {
    l.name + TailText(Tail(Decimal(l.x), 1, Decimal(l.y), 0))
  }

  predicate NoDigit(s: string) {
    forall i :: 0 <= i < |s| ==> !IsDigit(s[i])
  }

  /** Writing a location line and parsing it back gives the location, for
      any non-empty name without digits and newlines. */
  lemma LocationLineRoundTrip(l: Location)
    requires 0 <= l.x && 0 <= l.y
    requires 1 <= |l.name| && NoNewline(l.name) && NoDigit(l.name)
    ensures ParseLocation(FormatLocation(l)) == Ok(l)
  {
    var tl := Tail(Decimal(l.x), 1, Decimal(l.y), 0);
    var t := FormatLocation(l);
    var n := |l.name|;
    assert t[..n] == l.name && t[n..] == TailText(tl);
    assert DropFinalNewline(t) == t by {
      assert t[|t| - 1] == 'y';
    }
    ParseTailComplete(tl);
    ValueOfDecimal(l.x);
    ValueOfDecimal(l.y);
    forall k | 1 <= k < n ensures !TailAt(t, k) {
      var u := t[k..];
      assert u[1] == t[k + 1];
      assert !IsDigit(u[1]) by {
        if k + 1 < n { assert t[k + 1] == l.name[k + 1]; }
      }
      assert DigitRun(u, 1) == 0;
    }
    FirstTailIs(t, 1, n);
  }

  // ---- the location file ----

  /** The lines of a location file from `acc` on, each non-blank line read by
      `parse`: blank lines are skipped, a line `parse` refuses is an error, and
      a name already in the table is an error. The loader is stated for any
      line reader; the script's own is `ParseLocation` (see `AddLocations`). */
  function LoadLines(lines: seq<string>, acc: map<string, Location>, strip: string -> string,
                     parse: string -> Result<Location>): Result<map<string, Location>>
    decreases |lines|
  {
    if lines == [] then Ok(acc)
    else
      var line := strip(lines[0]);
      if line == "" then LoadLines(lines[1..], acc, strip, parse)
      else
        match parse(line)
        case Err(e) => Err(e)
        case Ok(location) =>
          if location.name in acc then Err(DuplicateLocation(location.name))
          else LoadLines(lines[1..], acc[location.name := location], strip, parse)
  }

  /** The loop of `parse_location_file`, with `parse_location` as the reader. */
  function AddLocations(lines: seq<string>, acc: map<string, Location>, strip: string -> string): Result<map<string, Location>> {
    LoadLines(lines, acc, strip, ParseLocation)
  }

  /** One line of the location file: skipped when blank, otherwise parsed
      and added under its name unless that name is already taken. */
  lemma LoadLinesHead(lines: seq<string>, acc: map<string, Location>, strip: string -> string,
                      parse: string -> Result<Location>)
    requires lines != []
    ensures strip(lines[0]) == "" ==> LoadLines(lines, acc, strip, parse) == LoadLines(lines[1..], acc, strip, parse)
    ensures strip(lines[0]) != "" && parse(strip(lines[0])).Err? ==>
              LoadLines(lines, acc, strip, parse) == Err(parse(strip(lines[0])).error)
    ensures strip(lines[0]) != "" && parse(strip(lines[0])).Ok? ==>
              var location := parse(strip(lines[0])).value;
              LoadLines(lines, acc, strip, parse)
              == if location.name in acc then Err(DuplicateLocation(location.name))
                 else LoadLines(lines[1..], acc[location.name := location], strip, parse)
  {
  }

  /** `parse_location_file` on the lines of the file. */
  method ParseLocationFile(lines: seq<string>, strip: string -> string) returns (r: Result<map<string, Location>>)
    ensures r == AddLocations(lines, map[], strip)
  {
    var locations: map<string, Location> := map[];
    ghost var table := AddLocations(lines, map[], strip);
    var i := 0;
    assert lines[i..] == lines;
    while i < |lines|
      invariant 0 <= i <= |lines|
      invariant table == LoadLines(lines[i..], locations, strip, ParseLocation)
    {
      ghost var rest := lines[i..];
      assert rest[0] == lines[i] && rest[1..] == lines[i + 1..];
      LoadLinesHead(rest, locations, strip, ParseLocation);
      var line := strip(lines[i]);
      if line == "" {
        i := i + 1;
        continue;
      }
      var location := ParseLocation(line);
      if location.Err? {
        return Err(location.error);
      }
      if location.value.name in locations {
        return Err(DuplicateLocation(location.value.name));
      }
      locations := locations[location.value.name := location.value];
      i := i + 1;
    }
    assert lines[i..] == [];
    return Ok(locations);
  }

  /** Loading keeps every entry the table started with. */
  lemma {:induction false} LoadLinesKeeps(lines: seq<string>, acc: map<string, Location>, strip: string -> string,
                                          parse: string -> Result<Location>)
    requires LoadLines(lines, acc, strip, parse).Ok?
    ensures forall k :: k in acc ==>
              k in LoadLines(lines, acc, strip, parse).value && LoadLines(lines, acc, strip, parse).value[k] == acc[k]
  {
    if lines != [] {
      var line := strip(lines[0]);
      if line == "" {
        LoadLinesKeeps(lines[1..], acc, strip, parse);
      } else {
        var location := parse(line).value;
        LoadLinesKeeps(lines[1..], acc[location.name := location], strip, parse);
      }
    }
  }

  /** Non-blank line `i` parses, its name was not in the table before, and
      the loaded table maps that name to its location. */
  lemma {:induction false} LoadLinesEntry(lines: seq<string>, acc: map<string, Location>, strip: string -> string,
                                          parse: string -> Result<Location>, i: nat)
    requires LoadLines(lines, acc, strip, parse).Ok?
    requires i < |NonBlank(lines, strip)|
    ensures var entry := parse(NonBlank(lines, strip)[i]);
            var table := LoadLines(lines, acc, strip, parse).value;
            entry.Ok? && entry.value.name !in acc && entry.value.name in table && table[entry.value.name] == entry.value
  {
    var line := strip(lines[0]);
    if line == "" {
      LoadLinesEntry(lines[1..], acc, strip, parse, i);
    } else {
      var location := parse(line).value;
      var acc' := acc[location.name := location];
      assert NonBlank(lines, strip) == [line] + NonBlank(lines[1..], strip);
      if i == 0 {
        LoadLinesKeeps(lines[1..], acc', strip, parse);
      } else {
        LoadLinesEntry(lines[1..], acc', strip, parse, i - 1);
      }
    }
  }

  /** The names of two non-blank lines of a loaded file differ. */
  lemma {:induction false} LoadLinesDistinct(lines: seq<string>, acc: map<string, Location>, strip: string -> string,
                                             parse: string -> Result<Location>, i: nat, j: nat)
    requires LoadLines(lines, acc, strip, parse).Ok?
    requires i < j < |NonBlank(lines, strip)|
    ensures parse(NonBlank(lines, strip)[i]).Ok? && parse(NonBlank(lines, strip)[j]).Ok?
    ensures parse(NonBlank(lines, strip)[i]).value.name != parse(NonBlank(lines, strip)[j]).value.name
  {
    var line := strip(lines[0]);
    var later := NonBlank(lines[1..], strip);
    if line == "" {
      assert NonBlank(lines, strip) == later;
      LoadLinesDistinct(lines[1..], acc, strip, parse, i, j);
    } else {
      var location := parse(line).value;
      var acc' := acc[location.name := location];
      var entries := NonBlank(lines, strip);
      assert entries == [line] + later;
      var j' := j - 1;
      assert entries[j] == later[j'];
      if i == 0 {
        LoadLinesEntry(lines[1..], acc', strip, parse, j');
      } else {
        var i' := i - 1;
        assert entries[i] == later[i'];
        LoadLinesDistinct(lines[1..], acc', strip, parse, i', j');
      }
    }
  }

  /** The names of the non-blank lines that parse, in order. */
  function LoadedNames(lines: seq<string>, strip: string -> string, parse: string -> Result<Location>): (r: seq<string>)
    ensures |r| <= |lines|
  {
    if lines == [] then []
    else
      var line := strip(lines[0]);
      if line != "" && parse(line).Ok? then [parse(line).value.name] + LoadedNames(lines[1..], strip, parse)
      else LoadedNames(lines[1..], strip, parse)
  }

  /** Every key of a loaded table was there before or is the name of a
      non-blank line. */
  lemma {:induction false} LoadLinesOnly(lines: seq<string>, acc: map<string, Location>, strip: string -> string,
                                         parse: string -> Result<Location>, k: string)
    requires LoadLines(lines, acc, strip, parse).Ok?
    requires k in LoadLines(lines, acc, strip, parse).value
    ensures k in acc || k in LoadedNames(lines, strip, parse)
  {
    if lines != [] {
      var line := strip(lines[0]);
      if line == "" {
        LoadLinesOnly(lines[1..], acc, strip, parse, k);
      } else {
        var location := parse(line).value;
        LoadLinesOnly(lines[1..], acc[location.name := location], strip, parse, k);
      }
    }
  }

  /** A name on two non-blank lines of a location file makes loading fail. */
  lemma DuplicateNameRejected(lines: seq<string>, strip: string -> string, i: nat, j: nat)
    requires i < j < |NonBlank(lines, strip)|
    requires ParseLocation(NonBlank(lines, strip)[i]).Ok? && ParseLocation(NonBlank(lines, strip)[j]).Ok?
    requires ParseLocation(NonBlank(lines, strip)[i]).value.name == ParseLocation(NonBlank(lines, strip)[j]).value.name
    ensures AddLocations(lines, map[], strip).Err?
  {
    if AddLocations(lines, map[], strip).Ok? {
      LoadLinesDistinct(lines, map[], strip, ParseLocation, i, j);
    }
  }

  // ---- the route file ----

  /** The movements of the lines after the first: blank lines are skipped,
      every leg starts at `start` (the script never moves its last location
      on), and a location missing from the table is an error. */
  function RouteLegs(rest: seq<string>, locations: map<string, Location>, start: Location,
                     strip: string -> string): Result<seq<Movement>>
    decreases |rest|
  {
    if rest == [] then Ok([])
    else
      var line := strip(rest[0]);
      if line == "" then RouteLegs(rest[1..], locations, start, strip)
      else
        match ParseRouteStr(line)
        case Err(e) => Err(e)
        case Ok((movement, location)) =>
          if location !in locations then Err(UnknownLocation(location))
          else Prepend([Movement(start, locations[location], movement)],
                       RouteLegs(rest[1..], locations, start, strip))
  }

  /** One line after the first: skipped when blank, otherwise a leg from
      `start`, unless the line does not parse or names an unknown location. */
  lemma RouteLegsHead(rest: seq<string>, locations: map<string, Location>, start: Location,
                      strip: string -> string)
    requires rest != []
    ensures strip(rest[0]) == "" ==>
              RouteLegs(rest, locations, start, strip) == RouteLegs(rest[1..], locations, start, strip)
    ensures strip(rest[0]) != "" && ParseRouteStr(strip(rest[0])).Err? ==>
              RouteLegs(rest, locations, start, strip) == Err(ParseRouteStr(strip(rest[0])).error)
    ensures strip(rest[0]) != "" && ParseRouteStr(strip(rest[0])).Ok? ==>
              var (movement, location) := ParseRouteStr(strip(rest[0])).value;
              RouteLegs(rest, locations, start, strip)
              == if location !in locations then Err(UnknownLocation(location))
                 else Prepend([Movement(start, locations[location], movement)],
                              RouteLegs(rest[1..], locations, start, strip))
  {
  }

  /** What `parse_route_file` returns or raises for the lines of a route file
      and a location table. */
  function Route(lines: seq<string>, locations: map<string, Location>, strip: string -> string): Result<seq<Movement>> {
    if lines == [] then Err(EmptyRouteFile)
    else
      match ParseStartLine(strip(lines[0]))
      case Err(e) => Err(e)
      case Ok(name) =>
        if name !in locations then Err(UnknownStartLocation(name))
        else RouteLegs(lines[1..], locations, locations[name], strip)
  }

  /** `parse_route_file` on the lines of the file. */
  method ParseRouteFile(lines: seq<string>, locations: map<string, Location>, strip: string -> string)
    returns (r: Result<seq<Movement>>)
    ensures r == Route(lines, locations, strip)
  {
    if lines == [] {
      return Err(EmptyRouteFile);
    }
    var startMatch := ParseStartLine(strip(lines[0]));
    if startMatch.Err? {
      return Err(startMatch.error);
    }
    if startMatch.value !in locations {
      return Err(UnknownStartLocation(startMatch.value));
    }
    r := RouteFrom(lines, locations, locations[startMatch.value], strip);
  }

  /** The loop of `parse_route_file` over the lines after the first. */
  method RouteFrom(lines: seq<string>, locations: map<string, Location>, start: Location, strip: string -> string)
    returns (r: Result<seq<Movement>>)
    requires 1 <= |lines|
    ensures r == RouteLegs(lines[1..], locations, start, strip)
  {
    var movements: seq<Movement> := [];
    var lastLocation := start;
    ghost var route := RouteLegs(lines[1..], locations, lastLocation, strip);
    PrependEmpty(route);
    var i := 1;
    while i < |lines|
      invariant 1 <= i <= |lines|
      invariant route == Prepend(movements, RouteLegs(lines[i..], locations, lastLocation, strip))
    {
      ghost var rest := lines[i..];
      assert rest[0] == lines[i] && rest[1..] == lines[i + 1..];
      var next := RouteLine(rest, strip(lines[i]), locations, lastLocation, strip);
      if next.Err? {
        return Err(next.error);
      }
      if next.value.Some? {
        var leg := next.value.value;
        PrependTwice(movements, leg, RouteLegs(lines[i + 1..], locations, lastLocation, strip));
        movements := movements + [leg];
      }
      i := i + 1;
    }
    assert lines[i..] == [];
    assert movements + [] == movements;
    return Ok(movements);
  }

  /** The body of the loop of `parse_route_file` for one line: a blank line
      is skipped (`None`), any other becomes the leg from the start location
      to the location it names. */
  method RouteLine(ghost rest: seq<string>, line: string, locations: map<string, Location>, start: Location,
                   strip: string -> string) returns (r: Result<Option<Movement>>)
    requires rest != [] && strip(rest[0]) == line
    ensures r.Err? ==> RouteLegs(rest, locations, start, strip) == Err(r.error)
    ensures r == Ok(None) <==> line == ""
    ensures r == Ok(None) ==> RouteLegs(rest, locations, start, strip) == RouteLegs(rest[1..], locations, start, strip)
    ensures r.Ok? && r.value.Some? ==>
              RouteLegs(rest, locations, start, strip)
              == Prepend([r.value.value], RouteLegs(rest[1..], locations, start, strip))
  {
    RouteLegsHead(rest, locations, start, strip);
    if line == "" {
      return Ok(None);
    }
    var parsed := ParseRouteStr(line);
    if parsed.Err? {
      return Err(parsed.error);
    }
    var (movement, location) := parsed.value;
    if location !in locations {
      return Err(UnknownLocation(location));
    }
    return Ok(Some(Movement(start, locations[location], movement)));
  }

  /** One movement per non-blank line. */
  lemma {:induction false} RouteLegsCount(rest: seq<string>, locations: map<string, Location>, start: Location,
                                          strip: string -> string)
    requires RouteLegs(rest, locations, start, strip).Ok?
    ensures |RouteLegs(rest, locations, start, strip).value| == |NonBlank(rest, strip)|
  {
    if rest != [] {
      RouteLegsCount(rest[1..], locations, start, strip);
    }
  }

  /** Movement `i` goes from `start` to the table entry that non-blank line
      `i` names, by that line's raw movement text. */
  lemma {:induction false} RouteLegAt(rest: seq<string>, locations: map<string, Location>, start: Location,
                                      strip: string -> string, i: nat)
    requires RouteLegs(rest, locations, start, strip).Ok?
    requires i < |NonBlank(rest, strip)|
    ensures i < |RouteLegs(rest, locations, start, strip).value|
    ensures var leg := RouteLegs(rest, locations, start, strip).value[i];
            var parsed := ParseRouteStr(NonBlank(rest, strip)[i]);
            leg.start == start && parsed.Ok? &&
            leg.movementType == parsed.value.0 &&
            parsed.value.1 in locations && leg.end == locations[parsed.value.1]
  {
    RouteLegsCount(rest, locations, start, strip);
    var later := NonBlank(rest[1..], strip);
    if strip(rest[0]) == "" {
      assert NonBlank(rest, strip) == later;
      RouteLegAt(rest[1..], locations, start, strip, i);
    } else {
      assert NonBlank(rest, strip) == [strip(rest[0])] + later;
      if 0 < i {
        var i' := i - 1;
        assert NonBlank(rest, strip)[i] == later[i'];
        RouteLegAt(rest[1..], locations, start, strip, i');
      }
    }
  }

  /** A compiled route has one movement per non-blank line after the first,
      and every movement starts at the start location. */
  lemma RouteStartsEverywhere(lines: seq<string>, locations: map<string, Location>, strip: string -> string)
    requires Route(lines, locations, strip).Ok?
    ensures lines != [] && ParseStartLine(strip(lines[0])).Ok?
    ensures ParseStartLine(strip(lines[0])).value in locations
    ensures var legs := Route(lines, locations, strip).value;
            |legs| == |NonBlank(lines[1..], strip)| &&
            forall i :: 0 <= i < |legs| ==> legs[i].start == locations[ParseStartLine(strip(lines[0])).value]
  {
    var start := locations[ParseStartLine(strip(lines[0])).value];
    RouteLegsCount(lines[1..], locations, start, strip);
    forall i | 0 <= i < |Route(lines, locations, strip).value|
      ensures Route(lines, locations, strip).value[i].start == start
    {
      RouteLegAt(lines[1..], locations, start, strip, i);
    }
  }

  /** A non-blank line naming a location missing from the table makes the
      compilation fail with that name, when every earlier line is fine. */
  lemma UnknownLocationRejected(rest: seq<string>, locations: map<string, Location>, start: Location,
                                strip: string -> string)
    requires rest != [] && strip(rest[0]) != "" && ParseRouteStr(strip(rest[0])).Ok?
    requires ParseRouteStr(strip(rest[0])).value.1 !in locations
    ensures RouteLegs(rest, locations, start, strip) == Err(UnknownLocation(ParseRouteStr(strip(rest[0])).value.1))
  {
  }
}
