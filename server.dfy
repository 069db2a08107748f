/**
 * The request handler: `onRequest` selects a handler from the path and
 * turns a `MessageException` raised while handling into a plain-text
 * response; `onError` answers protocol errors with a bare status; the
 * not-found and root handlers answer with fixed text.
 */
module Server {
  import opened Wrappers
  import opened Text
  import opened Status
  import opened Json
  import opened Http
  import opened Errors
  import opened Router
  import opened Sysfs
  import opened Controller

  /** Whether `t` occurs in `s` starting at index `i`. */
  predicate OccursAt(s: string, t: string, i: nat) {
    i + |t| <= |s| && s[i..i + |t|] == t
  }

  /** Whether `t` occurs in `s`. */
  predicate Mentions(s: string, t: string) {
    exists i: nat :: i <= |s| && OccursAt(s, t, i)
  }

  /**
   * The usage text of the root handler: the literal with the line breaks
   * and the indentation it has in the source, and the `\n\n` escapes.
   */
  function UsageText(): string {
    var middle := "\n" + UsageIndent() + "\n\n" + UsageQueryLine() + "\n" + UsageIndent() + "\n\n";
    UsageTitle() + middle + UsageSetLine()
  }

  /** The usage text starts with its title and names the example query and set paths. */
  lemma UsageNamesRoutes()
    ensures Mentions(UsageText(), "/18") && Mentions(UsageText(), "/18/high")
    ensures |UsageTitle()| <= |UsageText()| && UsageText()[..|UsageTitle()|] == UsageTitle()
  {
    var middle := "\n" + UsageIndent() + "\n\n" + UsageQueryLine() + "\n" + UsageIndent() + "\n\n";
    LineEnds(SetHow(), "/18/high");
    UsageShape(UsageTitle(), middle, UsageSetLine());
  }

  /** A text that starts with the title and ends with the pin-set line names both example paths. */
  lemma UsageShape(title: string, middle: string, last: string)
    requires |last| >= 8 && OccursAt(last, "/18/high", |last| - 8)
    ensures Mentions(title + middle + last, "/18") && Mentions(title + middle + last, "/18/high")
    ensures |title| <= |title + middle + last| && (title + middle + last)[..|title|] == title
  {
    var text := title + middle + last;
    var i := |title + middle| + |last| - 8;
    OccursAfter(title + middle, last, "/18/high", |last| - 8);
    OccursPrefix(text, "/18/high", i, 3);
    assert "/18/high"[..3] == "/18";
    PrefixOf(title, middle, last);
  }

  /** A usage line ends with its example path. */
  lemma LineEnds(how: string, example: string)
    ensures |example| <= |UsageLine(how, example)|
    ensures OccursAt(UsageLine(how, example), example, |UsageLine(how, example)| - |example|)
  {
    var line := UsageLine(how, example);
    assert line[|line| - |example|..] == example;
  }

  /** What occurs in `b` occurs in `a + b`, shifted by `|a|`. */
  lemma OccursAfter(a: string, b: string, t: string, i: nat)
    requires OccursAt(b, t, i)
    ensures OccursAt(a + b, t, |a| + i)
  {
    assert (a + b)[|a| + i..|a| + i + |t|] == b[i..i + |t|];
  }

  /** A prefix of an occurrence is an occurrence. */
  lemma OccursPrefix(s: string, t: string, i: nat, k: nat)
    requires OccursAt(s, t, i) && k <= |t|
    ensures OccursAt(s, t[..k], i)
  {
    assert s[i..i + k] == s[i..i + |t|][..k];
  }

  lemma PrefixOf(a: string, b: string, c: string)
    ensures (a + b + c)[..|a|] == a
  {
    assert a + b + c == a + (b + c);
  }

  function UsageTitle(): string { "GPIO with Icicle.io example!" }
  function UsageIndent(): string { "            " }

  /** A line of the usage text: what a path does with a pin, then an example of the path. */
  function UsageLine(how: string, example: string): string {
    "Access the pin " + how + ": " + example
  }

  /** What a pin-set path does, in the words of the usage text. */
  function SetHow(): string { "with high/low to change the state" }

  function UsageQueryLine(): string { UsageLine("number to get the status", "/18") }
  function UsageSetLine(): string { UsageLine(SetHow(), "/18/high") }

  /** `notFoundHandler`: 404, `text/plain`, body `Not Found`. */
  function NotFoundHandler(): (r: Response)
    ensures r.status == 404 && HasContentType(r, "text/plain") && r.body == "Not Found"
    ensures LengthMatches(r) && ParseDecimal(r.headers["Content-Length"]) == Some(9)
  {
    Utf8LengthBounds("Not Found");
    WithBody(404, "text/plain", "Not Found")
  }

  /** `rootHandler`: 200, `text/plain`, the usage text naming `/18` and `/18/high`. */
  function RootHandler(): (r: Response)
    ensures r.status == 200 && HasContentType(r, "text/plain")
    ensures Mentions(r.body, "/18") && Mentions(r.body, "/18/high")
    ensures LengthMatches(r)
  {
    UsageNamesRoutes();
    WithBody(200, "text/plain", UsageText())
  }

  /** `onError`: a response carrying only the given status, no header and no body. */
  function OnError(code: int): (r: Response)
    ensures r.status == code && r.headers == map[] && r.body == ""
  {
    Response(code, map[], "")
  }

  /**
   * The `catch (MessageException $e)` of `onRequest`: such a failure
   * becomes a response with the exception's code, `text/plain`, the message
   * as body and a matching Content-Length; a response passes unchanged and
   * any other failure escapes.
   */
  function Catch(handled: Result<Response, Failure>): (r: Result<Response, Failure>)
    ensures handled.Ok? ==> r == handled
    ensures r.Err? <==> handled.Err? && handled.error.FileException?
    ensures r.Err? ==> r == handled
    ensures handled.Err? && handled.error.MessageException? ==>
      r.value.status == handled.error.code && HasContentType(r.value, "text/plain") &&
      r.value.body == handled.error.message && LengthMatches(r.value)
  {
    match handled
    case Ok(_) => handled
    case Err(MessageException(code, message)) => Ok(WithBody(code, "text/plain", message))
    case Err(FileException(_)) => handled
  }

  /** The handler `onRequest` selects for a route, run before the exception mapping. */
  method Dispatch(fs: FileSystem, route: Route) returns (handled: Result<Response, Failure>)
    requires fs.Valid()
    modifies fs`dirs, fs`files, fs`writes, fs`handles
    ensures fs.Valid()
    ensures handled.Ok? ==> LengthMatches(handled.value)
    ensures route == NotFound || route == Root ==>
      handled == Ok(if route == Root then RootHandler() else NotFoundHandler()) &&
      fs.dirs == old(fs.dirs) && fs.files == old(fs.files) && fs.writes == old(fs.writes) && fs.handles == old(fs.handles)
    ensures route.PinQuery? ==>
      fs.dirs == old(fs.dirs) && fs.files == old(fs.files) && fs.writes == old(fs.writes) &&
      handled == PinResult(ReadBack(old(fs.State()), route.pin)) &&
      fs.handles == old(fs.handles) + ReadHandles(old(fs.State()), route.pin)
    ensures route.PinSet? && !old(Drivable(fs, route.pin)) ==>
      handled == Err(old(DriveFailure(fs, route.pin))) && fs.writes == old(fs.writes) + old(FailedWrites(fs, route.pin))
    ensures route.PinSet? && old(Drivable(fs, route.pin)) ==>
      fs.writes == old(fs.writes) + Planned(PinDir(route.pin) in old(fs.dirs), route.pin, route.action) &&
      PinDir(route.pin) in fs.dirs && ValuePath(route.pin) in fs.files &&
      fs.files[ValuePath(route.pin)] == LevelDigit(route.action) &&
      handled == PinResult(ReadBack(fs.State(), route.pin)) &&
      fs.handles == old(fs.handles) +
        (if PinDir(route.pin) in old(fs.dirs) then [] else [Handle(ExportPath(), WriteMode, false)]) +
        [Handle(ValuePath(route.pin), WriteMode, true)] + ReadHandles(fs.State(), route.pin)
    ensures route.PinSet? ==> fs.dirs == old(SetDirs(fs, route.pin))
    ensures route.PinSet? && old(Drivable(fs, route.pin)) ==>
      fs.files == old(SetFiles(fs, route.pin))[ValuePath(route.pin) := LevelDigit(route.action)]
    ensures route.PinSet? && !old(Drivable(fs, route.pin)) ==>
      fs.files == old(SetFiles(fs, route.pin)) && fs.handles == old(fs.handles) + old(FailedHandles(fs, route.pin))
  {
    if route.PinQuery? || route.PinSet? {
      handled := DispatchPin(fs, route);
    } else {
      handled := DispatchFixed(route);
    }
  }

  /** The two routes that touch no pin: the usage text for the root, `Not Found` for any other path. */
  method DispatchFixed(route: Route) returns (handled: Result<Response, Failure>)
    requires route == Root || route == NotFound
    ensures handled == Ok(if route == Root then RootHandler() else NotFoundHandler()) && LengthMatches(handled.value)
  {
    if route == Root {
      handled := Ok(RootHandler());
    } else {
      handled := Ok(NotFoundHandler());
    }
  }

  /** The two pin routes, both served by `gpioPinHandler`: a query without an action, a set with one. */
  method DispatchPin(fs: FileSystem, route: Route) returns (handled: Result<Response, Failure>)
    requires fs.Valid() && (route.PinQuery? || route.PinSet?)
    modifies fs`dirs, fs`files, fs`writes, fs`handles
    ensures fs.Valid()
    ensures handled.Ok? ==> LengthMatches(handled.value)
    ensures route.PinQuery? ==>
      fs.dirs == old(fs.dirs) && fs.files == old(fs.files) && fs.writes == old(fs.writes) &&
      handled == PinResult(ReadBack(old(fs.State()), route.pin)) &&
      fs.handles == old(fs.handles) + ReadHandles(old(fs.State()), route.pin)
    ensures route.PinSet? && !old(Drivable(fs, route.pin)) ==>
      handled == Err(old(DriveFailure(fs, route.pin))) && fs.writes == old(fs.writes) + old(FailedWrites(fs, route.pin))
    ensures route.PinSet? && old(Drivable(fs, route.pin)) ==>
      fs.writes == old(fs.writes) + Planned(PinDir(route.pin) in old(fs.dirs), route.pin, route.action) &&
      PinDir(route.pin) in fs.dirs && ValuePath(route.pin) in fs.files &&
      fs.files[ValuePath(route.pin)] == LevelDigit(route.action) &&
      handled == PinResult(ReadBack(fs.State(), route.pin)) &&
      fs.handles == old(fs.handles) +
        (if PinDir(route.pin) in old(fs.dirs) then [] else [Handle(ExportPath(), WriteMode, false)]) +
        [Handle(ValuePath(route.pin), WriteMode, true)] + ReadHandles(fs.State(), route.pin)
    ensures route.PinSet? ==> fs.dirs == old(SetDirs(fs, route.pin))
    ensures route.PinSet? && old(Drivable(fs, route.pin)) ==>
      fs.files == old(SetFiles(fs, route.pin))[ValuePath(route.pin) := LevelDigit(route.action)]
    ensures route.PinSet? && !old(Drivable(fs, route.pin)) ==>
      fs.files == old(SetFiles(fs, route.pin)) && fs.handles == old(fs.handles) + old(FailedHandles(fs, route.pin))
  {
    if route.PinQuery? {
      handled := GpioPinHandler(fs, route.pin, None);
    } else {
      handled := GpioPinHandler(fs, route.pin, Some(route.action));
    }
  }

  /**
   * `onRequest`: runs the handler the path selects and maps a
   * `MessageException` it raises to a plain-text response; `handled` is
   * what the handler produced before that mapping.
   */
  method OnRequest(fs: FileSystem, path: string) returns (r: Result<Response, Failure>, ghost route: Route, ghost handled: Result<Response, Failure>)
    requires fs.Valid()
    modifies fs`dirs, fs`files, fs`writes, fs`handles
    ensures fs.Valid()
    ensures route == ParseRoute(path) && r == Catch(handled)
    ensures r.Ok? ==> LengthMatches(r.value)
    ensures route == NotFound || route == Root ==>
      handled == Ok(if route == Root then RootHandler() else NotFoundHandler()) &&
      fs.dirs == old(fs.dirs) && fs.files == old(fs.files) && fs.writes == old(fs.writes) && fs.handles == old(fs.handles)
    ensures route.PinQuery? ==>
      fs.dirs == old(fs.dirs) && fs.files == old(fs.files) && fs.writes == old(fs.writes) &&
      handled == PinResult(ReadBack(old(fs.State()), route.pin)) &&
      fs.handles == old(fs.handles) + ReadHandles(old(fs.State()), route.pin)
    ensures route.PinSet? && !old(Drivable(fs, route.pin)) ==>
      handled == Err(old(DriveFailure(fs, route.pin))) && fs.writes == old(fs.writes) + old(FailedWrites(fs, route.pin))
    ensures route.PinSet? && old(Drivable(fs, route.pin)) ==>
      fs.writes == old(fs.writes) + Planned(PinDir(route.pin) in old(fs.dirs), route.pin, route.action) &&
      PinDir(route.pin) in fs.dirs && ValuePath(route.pin) in fs.files &&
      fs.files[ValuePath(route.pin)] == LevelDigit(route.action) &&
      handled == PinResult(ReadBack(fs.State(), route.pin)) &&
      fs.handles == old(fs.handles) +
        (if PinDir(route.pin) in old(fs.dirs) then [] else [Handle(ExportPath(), WriteMode, false)]) +
        [Handle(ValuePath(route.pin), WriteMode, true)] + ReadHandles(fs.State(), route.pin)
    ensures route.PinSet? ==> fs.dirs == old(SetDirs(fs, route.pin))
    ensures route.PinSet? && old(Drivable(fs, route.pin)) ==>
      fs.files == old(SetFiles(fs, route.pin))[ValuePath(route.pin) := LevelDigit(route.action)]
    ensures route.PinSet? && !old(Drivable(fs, route.pin)) ==>
      fs.files == old(SetFiles(fs, route.pin)) && fs.handles == old(fs.handles) + old(FailedHandles(fs, route.pin))
  {
    var selected := ParseRoute(path);
    route := selected;
    var outcome := Dispatch(fs, selected);
    handled := outcome;
    r := Catch(outcome);
  }

  /**
   * A pin-set answered with JSON, then a query of the same pin: the query
   * writes nothing, gets the very same answer, and reports the level that
   * was set.
   */
  method SetThenQuery(fs: FileSystem, pin: string, l: Level) returns (setting: Result<Response, Failure>, query: Result<Response, Failure>)
    requires fs.Valid() && IsDigitString(pin)
    modifies fs`dirs, fs`files, fs`writes, fs`handles
    ensures fs.Valid()
    ensures setting.Ok? && HasContentType(setting.value, "application/json") ==>
      fs.writes == old(fs.writes) + Planned(PinDir(pin) in old(fs.dirs), pin, l) &&
      query == setting && DirectionPath(pin) in fs.files &&
      DecodeStatus(query.value.body) == Some(PinStatus(pin, Initialized(Trim(fs.files[DirectionPath(pin)]), l)))
    // The direction reported is the kernel's for a freshly exported pin, and the file's as it was otherwise.
    ensures setting.Ok? && HasContentType(setting.value, "application/json") ==>
      if PinDir(pin) in old(fs.dirs) then
        DirectionPath(pin) in old(fs.files) && fs.files[DirectionPath(pin)] == old(fs.files)[DirectionPath(pin)]
      else fs.files[DirectionPath(pin)] == fs.kernel.direction
  {
    ghost var present, exported := PinDir(pin) in fs.dirs, SetFiles(fs, pin);
    ghost var filesBefore := fs.files;
    assert present ==> exported == filesBefore;
    assert !present && Drivable(fs, pin) ==> exported[DirectionPath(pin)] == fs.kernel.direction;
    setting := RequestSet(fs, pin, l);
    query := RequestQuery(fs, pin);
    if setting.Ok? && HasContentType(setting.value, "application/json") {
      assert fs.files[DirectionPath(pin)] == exported[DirectionPath(pin)] by { PathsDistinct(pin, pin); }
    }
  }

  /**
   * A pin query requested by its canonical path: it writes nothing, changes
   * no directory or file, answers with the tree as it is (a failure to read
   * it caught as `onRequest` does), and leaves closed the handles it opened.
   */
  method RequestQuery(fs: FileSystem, pin: string) returns (r: Result<Response, Failure>)
    requires fs.Valid() && IsDigitString(pin)
    modifies fs`dirs, fs`files, fs`writes, fs`handles
    ensures fs.Valid()
    ensures fs.dirs == old(fs.dirs) && fs.files == old(fs.files) && fs.writes == old(fs.writes)
    ensures fs.handles == old(fs.handles) + ReadHandles(old(fs.State()), pin)
    ensures r == Catch(PinResult(ReadBack(old(fs.State()), pin)))
  {
    RouteRoundTrip(PinQuery(pin));
    ghost var route, handled;
    r, route, handled := OnRequest(fs, RoutePath(PinQuery(pin)));
    assert route == PinQuery(pin);
  }

  /**
   * A pin-set requested by its canonical path: when it is answered with
   * JSON, the set was drivable, issued its planned writes, changed only the
   * pin's new files and its `value`, and reported the tree afterwards.
   */
  method RequestSet(fs: FileSystem, pin: string, l: Level) returns (r: Result<Response, Failure>)
    requires fs.Valid() && IsDigitString(pin)
    modifies fs`dirs, fs`files, fs`writes, fs`handles
    ensures fs.Valid()
    ensures r.Ok? && HasContentType(r.value, "application/json") ==>
      old(Drivable(fs, pin)) && fs.writes == old(fs.writes) + Planned(PinDir(pin) in old(fs.dirs), pin, l) &&
      fs.dirs == old(SetDirs(fs, pin)) && fs.files == old(SetFiles(fs, pin))[ValuePath(pin) := LevelDigit(l)] &&
      r == PinResult(ReadBack(fs.State(), pin)) && DirectionPath(pin) in fs.files &&
      r == PinResult(Ok(PinStatus(pin, Initialized(Trim(fs.files[DirectionPath(pin)]), l))))
  {
    RouteRoundTrip(PinSet(pin, l));
    ghost var route, handled;
    r, route, handled := OnRequest(fs, RoutePath(PinSet(pin, l)));
    assert route == PinSet(pin, l);
    if r.Ok? && HasContentType(r.value, "application/json") {
      assert handled.Ok?;
      ValueLevelOfDigit(l);
      assert fs.files[ValuePath(pin)] == LevelDigit(l);
    }
  }

  /**
   * Two pin-sets of the same pin whose writes get through: `export` is
   * written at most once, by the first; the second writes only `value`.
   */
  method RepeatedSet(fs: FileSystem, pin: string, first: Level, second: Level) returns (r1: Result<Response, Failure>, r2: Result<Response, Failure>)
    requires fs.Valid() && IsDigitString(pin)
    modifies fs`dirs, fs`files, fs`writes, fs`handles
    ensures fs.Valid()
    ensures old(Drivable(fs, pin)) ==>
      fs.writes == old(fs.writes) + Planned(PinDir(pin) in old(fs.dirs), pin, first) + [WriteRecord(ValuePath(pin), LevelDigit(second))]
  {
    var path1, path2 := RoutePath(PinSet(pin, first)), RoutePath(PinSet(pin, second));
    RouteRoundTrip(PinSet(pin, first));
    RouteRoundTrip(PinSet(pin, second));
    ghost var before, dirsBefore, drivable := fs.writes, fs.dirs, Drivable(fs, pin);
    ghost var route1, route2, h1, h2;
    r1, route1, h1 := OnRequest(fs, path1);
    ghost var between, dirsBetween := fs.writes, fs.dirs;
    if drivable {
      assert between == before + Planned(PinDir(pin) in dirsBefore, pin, first);
      assert PinDir(pin) in dirsBetween && ValuePath(pin) in fs.files && ValuePath(pin) !in fs.faults;
      assert Drivable(fs, pin);
    }
    r2, route2, h2 := OnRequest(fs, path2);
    if drivable {
      assert Planned(true, pin, second) == [WriteRecord(ValuePath(pin), LevelDigit(second))];
      assert fs.writes == between + [WriteRecord(ValuePath(pin), LevelDigit(second))];
    }
  }
}
