# Notification pattern sample, modelled in Dafny

The sample shows a "notification pattern". An operation does not throw on a
domain failure. It returns a `Result` that collects Error-level and Warning-level
notifications, and a response mapper turns that `Result` into one of two HTTP
results: a 200 success body or a 400 problem body.

The modules follow the source files:

- `Wrappers.dfy`: `Option`, the two .NET exceptions the sample throws
  (`ArgumentException`, `InvalidOperationException`), and `Try`, which is either
  a returned value or a thrown exception.
- `Notifications.dfy` models `Abstraction.cs`. `NotificationLevel` and
  `Notification` are datatypes, and `Notification.None` is the constant
  `NoneNotification`. `Result` is a class with two `seq<Notification>` fields that
  `AddNotification` and `AddNotifications` extend. The two private constructors
  become the named constructors `FromNotification` and `FromList`. The C#
  overloads get distinct names: `Success()` is `Success`, `Success(list)` is
  `SuccessFrom`, `Notify(n)` is `Notify`, `Notify(list)` is `NotifyAll`. The
  implicit conversion from `Notification` to `Result` is the method `AsResult`.
  `OfLevel` is `List.FindAll` for one level.
- `ResultExtensions.dfy` models `Extensions.cs` as pure functions that read the
  `Result` object. The ASP.NET results become the datatype `HttpResult`, which
  is `OkResult(SuccessDetails)` or `ProblemResult(ProblemDetails)`. `Extensions`
  becomes an ordered list of `(name, items)` entries, and an item is the
  projected `(code, description)` pair. A thrown `InvalidOperationException` is
  the `Throws` branch of `Try`.
- `SampleService.dfy` models `Service.cs`. A date is an integer tick count. The
  caller passes in `today`, the tick of today's midnight, instead of the source
  reading `DateTime.Now.Date`. Cancellation of the one-second delay is a boolean
  input. A cancelled call returns `None`, meaning no Result. `Expected` is the
  pure specification of `Operation`.

Two consequences of the code are worth stating:

- A date later today counts as after today, because `Service.cs:7` compares
  the full `DateTime` against today's midnight. `LaterTodayIsFuture` states this.
- A Warning-level `Notify(n)` is a success. `Result.Notify` states that it fails
  exactly when `n` is an error.

## Model

| member | source | states |
|---|---|---|
| `Notifications.OfLevel` | NotificationPatternSample/Abstraction.cs:37-38 | the filtered list is no longer than the input; every item has the requested level; it is empty iff no input item has that level |
| `Notifications.OfLevelMembers` | NotificationPatternSample/Abstraction.cs:37-38 | an item is in the filtered list iff it is in the input and has the requested level |
| `Notifications.OfLevelAppend` | NotificationPatternSample/Abstraction.cs:35-39 | filtering distributes over concatenation, so items keep their input order and adding a list in two parts is the same as adding it at once |
| `Notifications.LevelPartition` | NotificationPatternSample/Abstraction.cs:1-6 | the Error, Warning and None filters of a list together have exactly its length, so only None-level items are left out of both Result lists |
| `Notifications.SingletonRouting` | NotificationPatternSample/Abstraction.cs:17-18 | routing the one-element list `[n]` gives the same lists as routing `n`, so `Notify(n)` and `Notify([n])` agree |
| `Notifications.Result.FromList` | NotificationPatternSample/Abstraction.cs:17 | a new Result whose errors and warnings are the Error and Warning items of the list, in order |
| `Notifications.Result.FromNotification` | NotificationPatternSample/Abstraction.cs:18 | a new Result holding `n` in errors if it is an error, in warnings if it is a warning, and in neither otherwise |
| `Notifications.Result.AddNotification` | NotificationPatternSample/Abstraction.cs:20-33 | an Error is appended to errors, a Warning to warnings, and a None changes nothing; the other list is unchanged |
| `Notifications.Result.AddNotifications` | NotificationPatternSample/Abstraction.cs:35-39 | errors grow by the Error-level items and warnings by the Warning-level items, each in input order; None items are dropped |
| `Notifications.Result.IsSuccess` | NotificationPatternSample/Abstraction.cs:41 | success holds iff errors is empty |
| `Notifications.Result.IsFailure` | NotificationPatternSample/Abstraction.cs:41-42 | failure is the exact negation of success and holds iff errors is non-empty |
| `Notifications.Result.Success` | NotificationPatternSample/Abstraction.cs:47 | a new Result with both lists empty, which is a success, because the None sentinel is dropped |
| `Notifications.Result.SuccessFrom` | NotificationPatternSample/Abstraction.cs:48-54 | throws ArgumentException("Invalid error notification in the list", "notifications") iff some item is an error; otherwise a success with no errors and the warnings of the list in order |
| `Notifications.Result.Notify` | NotificationPatternSample/Abstraction.cs:56 | the Result holds `n` in the list of its level and is a failure iff `n` is an error |
| `Notifications.Result.NotifyAll` | NotificationPatternSample/Abstraction.cs:57 | accepts any mix of levels without throwing; routes every item by level; a failure iff the list holds an error |
| `Notifications.AsResult` | NotificationPatternSample/Abstraction.cs:12 | the implicit conversion gives the same Result as `Notify(n)` |
| `ResultExtensions.Project` | NotificationPatternSample/Extensions.cs:21 | the projection has one `(code, description)` item per notification, at the same position |
| `ResultExtensions.ProjectAppend` | NotificationPatternSample/Extensions.cs:43-44 | the projection distributes over concatenation, so it preserves order |
| `ResultExtensions.ToSuccess` | NotificationPatternSample/Extensions.cs:8-30 | throws InvalidOperationException("Can't convert problem result to success") iff the Result fails; otherwise an Ok result with status 200, title "Success", no detail, and a single `warnings` extension holding the projected warnings when there are any, else no extensions |
| `ResultExtensions.ToProblemDetails` | NotificationPatternSample/Extensions.cs:32-46 | throws InvalidOperationException("Can't convert success result to problem") iff the Result succeeds; otherwise a problem with status 400, title "Bad Request", the type URI of section 6.5.1 of RFC 7231, no detail, and the `errors` and `warnings` extensions holding the projected lists |
| `ResultExtensions.ToResponse` | NotificationPatternSample/Extensions.cs:5-6 | never throws; gives the success shape iff the Result succeeds, and equals the narrow conversion that applies |
| `ResultExtensions.ExactlyOneConversion` | NotificationPatternSample/Extensions.cs:5-11 | on any Result exactly one of ToSuccess and ToProblemDetails succeeds |
| `ResultExtensions.WarningsAsymmetry` | NotificationPatternSample/Extensions.cs:19-45 | a success response has a `warnings` key iff there are warnings and never an `errors` key; a problem response always has both keys, each as long as the list it projects |
| `SampleService.Expected` | NotificationPatternSample/Service.cs:3-19 | no Result iff the date is not after today and the call is cancelled; at most one notification; an error iff the date is after today or the request is invalid; a warning iff the date is before today and the request is valid; a future date gives exactly the GreaterThanToday error, whatever `valid` and `cancelled` are; an invalid request not after today gives exactly the InvalidOperation error; a valid past date gives exactly the DateLessThanToday warning; a valid request for today's midnight gives no notifications |
| `SampleService.Operation` | NotificationPatternSample/Service.cs:3-18 | returns no Result exactly when `Expected` gives none, and otherwise a new Result whose lists are those of `Expected`; the call to `Success(list)` never reaches its exception |
| `SampleService.LaterTodayIsFuture` | NotificationPatternSample/Service.cs:7-8 | a date on today's date with a time of day after midnight gives the GreaterThanToday error |
| `SampleService.YesterdayWarns` | NotificationPatternSample/Service.cs:15-18 | the current instant minus one day, valid and not cancelled, gives a success with only the DateLessThanToday warning |
| `SampleService.TodaySucceeds` | NotificationPatternSample/Service.cs:15-18 | today's midnight, valid and not cancelled, gives a success with no errors and no warnings |
| `SampleService.OperationResponse` | NotificationPatternSample/Program.cs:17-19 | the response to a finished operation is the problem shape iff the date is after today or the request is invalid; a success carries the `warnings` extension iff the date is before today |

## Left out

- `Program.cs` host setup, dependency injection, route mapping and the binding of route values to `DateTime` and `bool` are not modelled. These are framework calls. `OperationResponse` only states what the route handler returns for a finished operation.
- `Task.Delay(1000, cancellationToken)`, async/await and the `TaskCanceledException` are not modelled. Cancellation is the boolean `cancelled`, and a cancelled call returns no Result.
- The clock is not modelled. `Service.cs` reads `DateTime.Now.Date` twice (lines 7 and 15), and the day could change between the two reads. The model takes a single `today` for both comparisons.
- JSON serialization is not modelled: property names, order attributes, null omission and extension data. An omitted field is `None`, and an omitted extension is an absent entry.
- The internals of ASP.NET `Results.Ok` and `Results.Problem` are not modelled, including any defaults the framework adds when writing a problem body. The two results are the plain datatype `HttpResult`.
- `Errors` and `Warnings` are exposed as mutable `List` objects in the source, so a holder of the list can change the Result through an alias. The model's fields are sequence values, and only `AddNotification` and `AddNotifications` change them.
- Enum values outside `None`, `Error` and `Warning` (possible through a cast in C#) are not modelled. The datatype has only the three values, and `AddNotification` drops a None the way the source's default branch does.
- ToSuccess, ToProblemDetails: the source's `Select` projections are lazy views of the live `Warnings` and `Errors` lists, so a notification added to the Result after the call but before serialization would still appear in the body. The model copies the projected items at call time.
