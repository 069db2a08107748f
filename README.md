# GPIO over HTTP: a Dafny model of the Icicle example server

This project models the request handler of the Icicle GPIO example
(`icicle/src/Server.php`): an HTTP server that reads and drives GPIO pins
through the Linux sysfs tree under `/sys/class/gpio`.

- **Router** (`Router`, `Server`). `onRequest` matches the path against
  `^/(\d+)$`, `^/(\d+)/(high|low)$` and `^/$` in that order. It selects a pin
  query, a pin set, the usage text, or 404 `Not Found`. A `MessageException`
  raised while handling becomes a `text/plain` response with the exception's
  code and message. `onError` answers with a bare status.
- **Pin controller** (`Controller`, over `Sysfs`). A pin set writes the pin
  to `/sys/class/gpio/export` only when `/sys/class/gpio/gpio{pin}` is
  absent. It then writes `1` (high) or `0` (low) to the pin's `value` file.
  Every pin route then re-checks the directory and, if it exists, reads
  `direction` and `value` back.
- **Status and response** (`Status`, `Numeric`, `Json`, `Http`). The pin
  record has the keys `pin`, `initialized`, and `direction` and `value`
  when the pin is initialized. `value` is `high` exactly when the trimmed
  file contents `==` the string `1` under PHP's loose comparison: two
  numeric strings compare as numbers, so `01`, `1.0`, `+1` and `1e0` all
  report `high`. The record is serialised the way `json_encode` does it.
  Every response with a body carries a `Content-Length` equal to the
  body's byte length.

The file system is a class, `Sysfs.FileSystem`. It holds the existing
directories, a map from path to contents, the log of every write, and the
table of opened handles. What the kernel does on a write to `export` is not
the server's behaviour. It is a `Kernel` value given to the file system:
the pins it accepts, and the initial `direction` and `value` contents of a
newly created pin directory. Opens that fail (permission denied, a missing
pin) are given as a map from path to the failure raised.

A pin set gets through exactly when its writes can happen. With the pin's
directory present, `value` must open. With it absent, `export` must open,
the kernel must accept the pin, and the new `value` file must open. Any
other set raises the failure of its first failing step (`DriveFailure`),
after the writes issued before that step (`FailedWrites`) and with the
handles opened before it (`FailedHandles`). Either way a set changes no
directory but the pin's own (`SetDirs`) and no file but the pin's new
`direction` and `value` when the kernel creates them (`SetFiles`) and,
when it gets through, the pin's `value`.

The model follows the code as written in these points:

- The pin is the digit string captured from the path and is never
  converted to a number. Leading zeros stay in the sysfs paths, and the
  JSON carries the pin as a string (`{"pin":"18",...}`), not a number.
- `trim` strips newlines, and `==` compares numeric strings as numbers.
  So raw `value` contents of `1\n`, ` 1 `, `01` or `1.0` report `high`.
  Contents that are not a numeric string equal to one report `low`,
  including `0`, `-1`, `2`, the empty string and text.
- PCRE's `$` also matches before one final newline, so `/18\n` routes like
  `/18`.
- The handle opened on `value` for writing is never closed. The model's
  handle table shows it still open after a pin set.

## Model

| member | source | states |
|---|---|---|
| `Text.Trim` | icicle/src/Server.php:113 | PHP `trim` with its default character set: the result is an infix of the input that neither starts nor ends with a trim character, and everything cut off on either side is a trim character |
| `Text.TrimPadded` | icicle/src/Server.php:116 | surrounding a string with trim characters does not change what `trim` returns |
| `Text.DecimalRoundTrip` | icicle/src/Server.php:43 | the decimal text written into `Content-Length` reads back as the same number |
| `Text.Utf8LengthBounds` | icicle/src/Server.php:98 | a body's byte length is at least its length, and equals its length exactly when the body is ASCII |
| `Status.LevelText` | icicle/src/Server.php:30 | the action word of a pin-set route and the reported value are `high` or `low` |
| `Status.LevelDigit` | icicle/src/Server.php:89 | a pin set writes `0` for `low` and `1` for `high` |
| `Status.ValueLevel` | icicle/src/Server.php:116 | trimmed contents `1` report `high`; trimmed contents `0` or empty report `low` |
| `Status.ValueLevelHigh` | icicle/src/Server.php:116 | the reported value is `high` exactly when the trimmed `value` contents `==` the string `1` under PHP's loose comparison |
| `Status.ValueLevelPaddedOne` | icicle/src/Server.php:116 | a single `1` with only trim characters around it reports `high` |
| `Status.ValueLevelLooseHigh` | icicle/src/Server.php:116 | `01\n` and `1.0` report `high`: they are numeric strings equal to one |
| `Status.ValueLevelNumericLow` | icicle/src/Server.php:116 | `-1` and `2` report `low`: they are numeric, but not equal to one |
| `Status.ValueLevelOfDigit` | icicle/src/Server.php:89 | reading back the digit a set writes, with or without the trailing newline sysfs adds, reports the level that was set |
| `Numeric.LooseEqualsOne` | icicle/src/Server.php:116 | a string `==` the string `1` exactly when it is a numeric string whose value is one |
| `Numeric.NumberOfDigits` | icicle/src/Server.php:116 | a string of ASCII digits is numeric, with its decimal value |
| `Numeric.NumberOfFraction` | icicle/src/Server.php:116 | `whole.fraction` is numeric, its digits read as one integer scaled down by the number of fraction digits |
| `Numeric.NumberOfOne` | icicle/src/Server.php:116 | `1` is numeric with value one and `0` is numeric with value zero |
| `Numeric.EmptyNotNumber` | icicle/src/Server.php:116 | the empty string is not numeric, so it is `==` only to itself |
| `Numeric.DigitsOne` | icicle/src/Server.php:116 | a digit string is equal to one exactly when its decimal value is one, so `01` is and `10` is not |
| `Numeric.FractionOne` | icicle/src/Server.php:116 | a decimal fraction is equal to one exactly when its digits make `10` to the number of fraction digits |
| `Numeric.NegativeNotOne` | icicle/src/Server.php:116 | a number written with a minus sign after any leading whitespace (`-1`, `-1.0`, `-1e0`, ` -1`) parses as negative and is never equal to one |
| `Json.Hex4RoundTrip` | icicle/src/Server.php:94 | the four hex digits of a `\u` escape read back as the code unit |
| `Json.EscapeChar` | icicle/src/Server.php:94 | the escape `json_encode` writes for one character is non-empty ASCII |
| `Json.Escape` | icicle/src/Server.php:94 | the escaped body of a JSON string is ASCII |
| `Json.Quote` | icicle/src/Server.php:94 | a JSON string literal is ASCII |
| `Json.EscapeCharRoundTrip` | icicle/src/Server.php:94 | decoding the escape `json_encode` writes for any character gives that character back |
| `Json.SurrogatePairEscape` | icicle/src/Server.php:94 | above U+FFFF the escape is two `\u` escapes, a high surrogate in `D800`-`DBFF` and then a low one in `DC00`-`DFFF`, which together give back the code point |
| `Json.EscapeRoundTrip` | icicle/src/Server.php:94 | decoding an escaped string up to its closing quote gives the string back |
| `Json.QuoteRoundTrip` | icicle/src/Server.php:94 | decoding a quoted JSON string gives the string and leaves the following text untouched |
| `Json.EncodeState` | icicle/src/Server.php:109-119 | the part of the record after `"initialized":` decodes to the same state: `false}` for an absent directory, otherwise `true` followed by `direction` and `value` in that order |
| `Json.EncodeStatus` | icicle/src/Server.php:92-94 | the JSON text of every pin record decodes back to that record, with the keys `pin`, `initialized`, `direction`, `value` in order |
| `Json.DecodeFields` | icicle/src/Server.php:108-111 | the text `{"pin":` and the quoted pin, then `,"initialized":`, read back as the pin, leaving the rest to the state |
| `Json.EncodeIsAscii` | icicle/src/Server.php:94 | the JSON text is pure ASCII, so its byte length equals its length |
| `Http.WithBody` | icicle/src/Server.php:41-44 | a response with a body has the given status, exactly the `Content-Type` and `Content-Length` headers, and a `Content-Length` that reads back as the body's byte length |
| `Router.Subject` | icicle/src/Server.php:28 | the text the anchored patterns must match in full is the path without its final newline when it ends with one, and the whole path otherwise |
| `Router.ParseRoute` | icicle/src/Server.php:28-35 | a path selects a pin query, a pin set (pin of one or more ASCII digits), the root, or not-found; any route other than not-found is selected only by its canonical path, possibly followed by one newline |
| `Router.RouteRoundTrip` | icicle/src/Server.php:28-35 | every pin query, pin set and the root route is selected by its canonical path, with or without a final newline |
| `Router.NotFoundExactly` | icicle/src/Server.php:34-35 | a path is not found exactly when it is no route's canonical path, with or without a final newline |
| `Router.UsageQuery` | icicle/src/Server.php:28-29 | `/18` selects a query of pin `18` |
| `Router.UsageSet` | icicle/src/Server.php:30-31 | `/18/high` selects a set of pin `18` to high |
| `Router.LeadingZeroKept` | icicle/src/Server.php:30-31 | `/018/low` selects a set of pin `018`: the leading zero is part of the pin |
| `Router.ExampleNotFound` | icicle/src/Server.php:34-35 | `/abc` and the empty path are not found |
| `Router.ExampleBadAction` | icicle/src/Server.php:30-35 | `/18/on` is not found: the action must be `high` or `low` |
| `Sysfs.PathsDistinct` | icicle/src/Server.php:83-88 | the export control file is none of a pin's files, a pin's `value` file is no pin's `direction` file, and distinct pins have distinct directories |
| `Sysfs.FileSystem.IsDir` | icicle/src/Server.php:83 | `isDir` is true exactly when the directory exists |
| `Sysfs.FileSystem.Open` | icicle/src/Server.php:84 | an open of an existing file with no failure attached adds an open handle; any other open raises the path's failure and changes nothing |
| `Sysfs.FileSystem.Write` | icicle/src/Server.php:85 | a write is logged; on `export` the kernel creates the pin directory with its files if it accepts the pin and refuses the write otherwise; any other file reads back what was written |
| `Sysfs.FileSystem.Read` | icicle/src/Server.php:113 | a read gives the file's contents |
| `Sysfs.FileSystem.Close` | icicle/src/Server.php:86 | a close marks that one handle closed and changes nothing else |
| `Controller.ReadBack` | icicle/src/Server.php:107-121 | the read-back status: uninitialized exactly when the pin directory is absent; otherwise `direction` is the trimmed `direction` file and `value` is `high` exactly when the trimmed `value` file is a numeric string equal to one; a failure exactly when one of the two files cannot be opened |
| `Controller.ReadClosed` | icicle/src/Server.php:112-117 | one read-back step opens the file for reading, returns its whole contents and leaves the handle closed; a failed open raises the path's failure and opens nothing |
| `Controller.GetPinData` | icicle/src/Server.php:107-122 | returns the read-back status of the current tree, writes nothing, and closes each handle it opens |
| `Controller.PinResponse` | icicle/src/Server.php:93-100 | a pin route answers 200 with `application/json`, a body that decodes to the status record, and a `Content-Length` equal to the body's length |
| `Controller.PinResult` | icicle/src/Server.php:92-100 | a read-back failure is passed on unchanged; a status becomes a 200 `application/json` response whose body decodes to that status, with a matching `Content-Length` |
| `Controller.Planned` | icicle/src/Server.php:83-89 | a pin set plans two writes, the pin to `export` and then the digit to `value`, when the directory is absent, and only the `value` write when it is present |
| `Controller.PlannedExport` | icicle/src/Server.php:83-89 | in a pin-set's writes, `export` is written at most once, first, with the pin, and only when the directory was absent; the last write is the digit, which reads back as the requested level |
| `Controller.ExportIfAbsent` | icicle/src/Server.php:83-87 | with the directory present nothing happens; otherwise `export` is opened, the pin written, and the handle closed, where a refused write raises before the close; a failure here is the failure of the whole set; no directory or file changes except the pin's new directory and files |
| `Controller.WriteValue` | icicle/src/Server.php:88-89 | the digit is written to `value` and that handle is left open, or the open fails and nothing changes |
| `Controller.DrivePin` | icicle/src/Server.php:82-90 | a pin set succeeds exactly when it is drivable, and then issues all its planned writes and leaves the digit in `value`; otherwise it raises the failure of its first failing step after the writes and opens issued before it; in both cases no directory but the pin's own and no file but the pin's new ones and its `value` changes |
| `Controller.GpioPinHandler` | icicle/src/Server.php:80-101 | a query writes nothing and reports the tree as it was; a drivable set issues the planned writes and reports the tree afterwards; any other set raises its first step's failure; a set changes no directory but the pin's own and no file but the pin's new ones and its `value`; on success exactly the `value` write handle is left open |
| `Server.UsageNamesRoutes` | icicle/src/Server.php:66-70 | the usage text starts with its title and names the example paths `/18` and `/18/high` |
| `Server.NotFoundHandler` | icicle/src/Server.php:54-64 | 404, `text/plain`, body `Not Found`, `Content-Length` 9 |
| `Server.RootHandler` | icicle/src/Server.php:66-78 | 200, `text/plain`, a usage text that mentions `/18` and `/18/high`, with a matching `Content-Length` |
| `Server.OnError` | icicle/src/Server.php:49-52 | a response with the given status, no headers and an empty body |
| `Server.Catch` | icicle/src/Server.php:37-46 | a `MessageException` becomes a response with its code, `text/plain`, its message as body and a matching `Content-Length`; a response passes unchanged; any other failure escapes |
| `Server.DispatchPin` | icicle/src/Server.php:28-31 | both pin routes run `gpioPinHandler`: a query writes nothing and reports the tree as it was; a set succeeds exactly when drivable, issuing the planned writes, and otherwise raises its first step's failure; a set changes no directory or file beyond the pin's own; the handle table after a query holds its closed read handles, and after a set that gets through also the `export` handle, closed, and the `value` write handle, still open |
| `Server.DispatchFixed` | icicle/src/Server.php:32-35 | the root route answers with the usage text and not-found with `Not Found`, both with a matching `Content-Length` |
| `Server.Dispatch` | icicle/src/Server.php:27-36 | each route runs its handler: root and not-found touch no file; a query writes nothing; a set succeeds exactly when drivable and then issues the planned writes, and otherwise raises its first step's failure; a set changes no directory or file beyond the pin's own; the handle table is stated for every route, with the `value` write handle of a set left open |
| `Server.OnRequest` | icicle/src/Server.php:23-47 | the route is the one the path selects and the response is the caught outcome of its handler, with the outcome stated for every route, including which directories and files a set may change and the handle table, where the `value` write handle of a set stays open; every response has a matching `Content-Length` |
| `Server.SetThenQuery` | icicle/src/Server.php:80-122 | after a pin set answered with JSON, a query of the same pin writes nothing, gets the same answer, and reports the level that was set and the direction the kernel gave a freshly exported pin, or the pin's `direction` file as it was |
| `Server.RequestQuery` | icicle/src/Server.php:80-122 | a query requested by its path writes nothing, changes no directory or file, answers with the caught read-back of the tree as it was, and leaves only closed read handles |
| `Server.RequestSet` | icicle/src/Server.php:80-101 | a set requested by its path and answered with JSON was drivable, issued its planned writes, changed only the pin's new files and its `value`, and reports the level that was set |
| `Server.RepeatedSet` | icicle/src/Server.php:82-89 | of two sets of the same drivable pin, only the first can write `export`; the second writes only `value` |

## Left out

- Icicle's coroutines (`yield`, `Loop`), the `Socket` and the `MemorySink` streams are not modelled. A sink is its final string, and each file operation is one sequential step on the file system.
- Real kernel behaviour is a `Kernel` parameter. The model creates the directory named by the exact text written to `export`. It does not model the kernel parsing that text as a number.
- A write to `value` is read back unchanged. The model does not model input-configured pins or the trailing newline sysfs adds to its own contents.
- Only opens can fail (from the fault map), and a write to `export` can be refused. Failures of non-export writes, of reads and of closes are not modelled.
- `FileSystem.Read` returns the whole file. Icicle's chunked reads are not modelled; sysfs attributes are short.
- Failures other than `MessageException` escape `onRequest` uncaught (`Err(FileException)`). The 500 response the Icicle server then produces is part of the library, which is not part of this model.
- `BasicResponse` status-code validation is library code and is not part of this model. The model accepts any code.
- Strings are sequences of Unicode characters. Invalid UTF-8 in a sysfs file, for which `json_encode` returns `false`, is not modelled.
- General `json_encode` and PCRE semantics are not modelled. Only the fixed record shape and the three anchored patterns are.
- The unused constant `ACCEPTABLE_TYPES`, the HTTP method, and concurrent requests racing on one pin are not modelled.
- Status.ValueLevel: numeric strings are compared as exact decimals. PHP compares two integer-form strings (`01` against `1`) as integers, but converts to floating point when one side has a point or an exponent or overflows an integer. So a string that only rounds to one, such as `1.00000000000000001`, is `==` to `1` in PHP and reports `low` here, and digit strings too long for a PHP integer are compared exactly here.
- Status.ValueLevel: numeric strings follow PHP 7, where nothing may follow the number. PHP 8 also accepts trailing whitespace, which matters only for a trailing form feed, since `trim` removes the others.
