/**
 * Route selection in `onRequest`: the request path is matched against three
 * anchored patterns in order, `^/(\d+)$`, `^/(\d+)/(high|low)$` and `^/$`,
 * and anything else is not found.
 */
module Router {
  import opened Text
  import opened Status

  /** The handler a path selects; the pin is the captured digit string. */
  datatype Route =
    | PinQuery(pin: string)
    | PinSet(pin: string, action: Level)
    | Root
    | NotFound

  /**
   * The part of the path the patterns must match in full. PCRE's `$`
   * (without the `D` modifier) also matches just before a final newline,
   * and no pattern can itself match a newline, so one trailing `\n` is
   * ignored.
   */
  function Subject(path: string): (s: string)
    ensures |path| > 0 && path[|path| - 1] == '\n' ==> path == s + "\n"
    ensures !(|path| > 0 && path[|path| - 1] == '\n') ==> s == path
  {
    if |path| > 0 && path[|path| - 1] == '\n' then path[..|path| - 1] else path
  }

  /** `/(\d+)` matched by the whole of `s`. */
  predicate IsPinPath(s: string) {
    |s| >= 2 && s[0] == '/' && IsDigitString(s[1..])
  }

  /** `/(\d+)/word` matched by the whole of `s`, for the route word of `l`. */
  predicate IsSetPath(s: string, l: Level) {
    var suffix := "/" + LevelText(l);
    |s| >= |suffix| && s[|s| - |suffix|..] == suffix && IsPinPath(s[..|s| - |suffix|])
  }

  /** The digits a pin-set path captures. */
  function SetPin(s: string, l: Level): string
    requires IsSetPath(s, l)
  {
    s[1..|s| - |"/" + LevelText(l)|]
  }

  /** The routes a path can select: a pin is one or more ASCII digits. */
  predicate Routable(r: Route) {
    match r
    case PinQuery(p) => IsDigitString(p)
    case PinSet(p, _) => IsDigitString(p)
    case Root => true
    case NotFound => false
  }

  /** The canonical path of a route. */
  function RoutePath(r: Route): string
    requires Routable(r)
  {
    match r
    case PinQuery(p) => "/" + p
    case PinSet(p, l) => "/" + p + "/" + LevelText(l)
    case Root => "/"
  }

  /**
   * `onRequest`'s if/elseif chain over the three patterns, first match wins.
   * A path that selects a handler other than not-found is the canonical path
   * of that route, possibly followed by one newline.
   */
  function ParseRoute(path: string): (r: Route)
    ensures Routable(r) || r == NotFound
    ensures r != NotFound ==> path == RoutePath(r) || path == RoutePath(r) + "\n"
  {
    var s := Subject(path);
    if IsPinPath(s) then
      PinPathCanonical(s);
      PinQuery(s[1..])
    else if IsSetPath(s, High) then
      SetPathCanonical(s, High);
      PinSet(SetPin(s, High), High)
    else if IsSetPath(s, Low) then
      SetPathCanonical(s, Low);
      PinSet(SetPin(s, Low), Low)
    else if s == "/" then Root
    else NotFound
  }

  lemma NotPinPath(p: string, l: Level)
    requires IsDigitString(p)
    ensures !IsPinPath("/" + p + "/" + LevelText(l))
  {
    var s := "/" + p + "/" + LevelText(l);
    assert s[1..][|p|] == '/';
  }

  lemma SetPathOf(p: string, l: Level)
    requires IsDigitString(p)
    ensures IsSetPath("/" + p + "/" + LevelText(l), l)
    ensures SetPin("/" + p + "/" + LevelText(l), l) == p
    ensures !IsSetPath("/" + p + "/" + LevelText(l), if l == High then Low else High)
  {
    var s := "/" + p + "/" + LevelText(l);
    var suffix := "/" + LevelText(l);
    assert s == ("/" + p) + suffix;
    assert s[|s| - |suffix|..] == suffix;
    assert s[..|s| - |suffix|] == "/" + p;
    assert ("/" + p)[1..] == p;
    var other := "/" + LevelText(if l == High then Low else High);
    if |s| >= |other| {
      assert s[|s| - 1] != other[|other| - 1];
    }
  }

  /**
   * Every route a path can select is selected by its canonical path, and by
   * that path with a trailing newline.
   */
  lemma RouteRoundTrip(r: Route)
    requires Routable(r)
    ensures ParseRoute(RoutePath(r)) == r
    ensures ParseRoute(RoutePath(r) + "\n") == r
  {
    var path := RoutePath(r);
    assert (path + "\n")[..|path + "\n"| - 1] == path;
    assert path[|path| - 1] != '\n';
    match r
    case PinQuery(p) =>
      assert path[1..] == p;
    case PinSet(p, l) =>
      NotPinPath(p, l);
      SetPathOf(p, l);
    case Root =>
  }

  lemma PinPathCanonical(s: string)
    requires IsPinPath(s)
    ensures Routable(PinQuery(s[1..])) && s == RoutePath(PinQuery(s[1..]))
  {
    assert s == "/" + s[1..];
  }

  lemma SetPathCanonical(s: string, l: Level)
    requires IsSetPath(s, l)
    ensures Routable(PinSet(SetPin(s, l), l)) && s == RoutePath(PinSet(SetPin(s, l), l))
  {
    var suffix := "/" + LevelText(l);
    var p := SetPin(s, l);
    assert s[..|s| - |suffix|] == "/" + p;
    assert s == s[..|s| - |suffix|] + s[|s| - |suffix|..];
    assert s == "/" + p + suffix;
  }

  /**
   * A path is not found exactly when it is no route's canonical path, with
   * or without a trailing newline.
   */
  lemma NotFoundExactly(path: string)
    ensures ParseRoute(path) == NotFound <==>
      forall r :: Routable(r) ==> path != RoutePath(r) && path != RoutePath(r) + "\n"
  {
    if ParseRoute(path) == NotFound {
      forall r | Routable(r) ensures path != RoutePath(r) && path != RoutePath(r) + "\n" {
        RouteRoundTrip(r);
      }
    }
  }

  /** The pin-status path the usage text names. */
  lemma UsageQuery()
    ensures ParseRoute("/18") == PinQuery("18")
  {
    RouteRoundTrip(PinQuery("18"));
    assert "/" + "18" == "/18";
  }

  /** The pin-set path the usage text names. */
  lemma UsageSet()
    ensures ParseRoute("/18/high") == PinSet("18", High)
  {
    assert IsDigit("18"[0]) && IsDigit("18"[1]);
    SetRouteAt("/18/high", "18", High);
  }

  /** A pin-set path spelled out is selected as that pin and level. */
  lemma SetRouteAt(path: string, p: string, l: Level)
    requires IsDigitString(p) && path == "/" + p + "/" + LevelText(l)
    ensures ParseRoute(path) == PinSet(p, l)
  {
    RouteRoundTrip(PinSet(p, l));
  }

  /** A leading zero is part of the pin: it is never parsed as a number. */
  lemma LeadingZeroKept()
    ensures ParseRoute("/018/low") == PinSet("018", Low)
  {
    assert IsDigit("018"[0]) && IsDigit("018"[1]) && IsDigit("018"[2]);
    SetRouteAt("/018/low", "018", Low);
  }

  /** Paths that match none of the patterns. */
  lemma ExampleNotFound()
    ensures ParseRoute("/abc") == NotFound
    ensures ParseRoute("") == NotFound
  {
    assert !IsPinPath("/abc") by { assert !IsDigit("/abc"[1..][0]); }
  }

  /** A pin followed by a word other than `high` or `low` is not found. */
  lemma ExampleBadAction()
    ensures ParseRoute("/18/on") == NotFound
  {
    var s := "/18/on";
    assert Subject(s) == s;
    assert !IsPinPath(s) by { assert !IsDigit(s[1..][2]); }
    assert !IsSetPath(s, High) by { assert s[|s| - 1] != 'h'; }
    assert !IsSetPath(s, Low) by { assert s[|s| - 1] != 'w'; }
  }
}
