/** The response mapper: turns a finished Result into an HTTP result value
    (NotificationPatternSample/Extensions.cs). */
module ResultExtensions {
  import Wrappers
  import opened Notifications

  /** What a response shows of one notification: `new { Code, Description }`. */
  datatype Item = Item(code: string, description: Wrappers.Option<string>)

  /** One entry of an `Extensions` dictionary, kept in insertion order. */
  datatype Extension = Extension(name: string, items: seq<Item>)

  /** The success body: title, status, detail and extension data. */
  datatype SuccessDetails = SuccessDetails(
    title: Wrappers.Option<string>,
    status: Wrappers.Option<int>,
    detail: Wrappers.Option<string>,
    extensions: seq<Extension>)

  /** The problem body produced by `Results.Problem`. */
  datatype ProblemDetails = ProblemDetails(
    status: Wrappers.Option<int>,
    title: Wrappers.Option<string>,
    typeUri: Wrappers.Option<string>,
    detail: Wrappers.Option<string>,
    extensions: seq<Extension>)

  /** The two results the mapper returns: `Results.Ok(details)` or a problem result. */
  datatype HttpResult = OkResult(success: SuccessDetails) | ProblemResult(problem: ProblemDetails)

  const Status200OK: int := 200
  const Status400BadRequest: int := 400

  /** The type URI of 400 Bad Request, section 6.5.1 of RFC 7231. */
  const BadRequestType: string := "https://tools.ietf.org/html/rfc7231#section-6.5.1"

  const ProblemToSuccessMessage: string := "Can't convert problem result to success"
  const SuccessToProblemMessage: string := "Can't convert success result to problem"

  /** The `Select(n => new { n.Code, n.Description })` projection: one item per
      notification, in the same order. */
  function Project(ns: seq<Notification>): (r: seq<Item>)
    ensures |r| == |ns|
    ensures forall i :: 0 <= i < |ns| ==> r[i] == Item(ns[i].code, ns[i].description)
  {
    if ns == [] then [] else [Item(ns[0].code, ns[0].description)] + Project(ns[1..])
  }

  /** Projection preserves order: it distributes over concatenation. */
  lemma ProjectAppend(a: seq<Notification>, b: seq<Notification>)
    ensures Project(a + b) == Project(a) + Project(b)
  {
  }

  /** The items stored under `name`, if the extensions hold that key. */
  function Lookup(exts: seq<Extension>, name: string): Wrappers.Option<seq<Item>>
  {
    if exts == [] then Wrappers.None
    else if exts[0].name == name then Wrappers.Some(exts[0].items)
    else Lookup(exts[1..], name)
  }

  /** `result.ToSuccess()`: refuses a failing result; otherwise 200 "Success",
      no detail, and a `warnings` extension only when there are warnings. */
  function ToSuccess(r: Result): (t: Wrappers.Try<HttpResult>)
    reads r
    ensures t.Throws? <==> r.IsFailure()
    ensures t.Throws? ==> t.exception == Wrappers.InvalidOperationException(ProblemToSuccessMessage)
    ensures t.Ok? ==> t.value.OkResult?
    ensures t.Ok? ==> t.value.success.status == Wrappers.Some(Status200OK)
    ensures t.Ok? ==> t.value.success.title == Wrappers.Some("Success")
    ensures t.Ok? ==> t.value.success.detail == Wrappers.None
    ensures t.Ok? ==>
              t.value.success.extensions ==
              (if r.warnings == [] then [] else [Extension("warnings", Project(r.warnings))])
  {
    if r.IsFailure() then
      Wrappers.Throws(Wrappers.InvalidOperationException(ProblemToSuccessMessage))
    else
      var details := SuccessDetails(Wrappers.Some("Success"), Wrappers.Some(Status200OK), Wrappers.None, []);
      var withWarnings :=
        if |r.warnings| != 0 then details.(extensions := [Extension("warnings", Project(r.warnings))])
        else details;
      Wrappers.Ok(OkResult(withWarnings))
  }

  /** `result.ToProblemDetails()`: refuses a succeeding result; otherwise 400
      "Bad Request" with the RFC 7231 type and both lists, always present. */
  function ToProblemDetails(r: Result): (t: Wrappers.Try<HttpResult>)
    reads r
    ensures t.Throws? <==> r.IsSuccess()
    ensures t.Throws? ==> t.exception == Wrappers.InvalidOperationException(SuccessToProblemMessage)
    ensures t.Ok? ==> t.value.ProblemResult?
    ensures t.Ok? ==> t.value.problem.status == Wrappers.Some(Status400BadRequest)
    ensures t.Ok? ==> t.value.problem.title == Wrappers.Some("Bad Request")
    ensures t.Ok? ==> t.value.problem.typeUri == Wrappers.Some(BadRequestType)
    ensures t.Ok? ==> t.value.problem.detail == Wrappers.None
    ensures t.Ok? ==>
              t.value.problem.extensions ==
              [Extension("errors", Project(r.errors)), Extension("warnings", Project(r.warnings))]
  {
    if r.IsSuccess() then
      Wrappers.Throws(Wrappers.InvalidOperationException(SuccessToProblemMessage))
    else
      Wrappers.Ok(ProblemResult(ProblemDetails(
        Wrappers.Some(Status400BadRequest),
        Wrappers.Some("Bad Request"),
        Wrappers.Some(BadRequestType),
        Wrappers.None,
        [Extension("errors", Project(r.errors)), Extension("warnings", Project(r.warnings))])))
  }

  /** `result.Result()`: never throws, and yields the success shape exactly
      when the result succeeds. */
  function ToResponse(r: Result): (resp: HttpResult)
    reads r
    ensures resp.OkResult? <==> r.IsSuccess()
    ensures r.IsSuccess() ==> ToSuccess(r) == Wrappers.Ok(resp)
    ensures r.IsFailure() ==> ToProblemDetails(r) == Wrappers.Ok(resp)
  {
    if r.IsSuccess() then ToSuccess(r).value else ToProblemDetails(r).value
  }

  /** Exactly one of the two narrow conversions succeeds on any result. */
  lemma ExactlyOneConversion(r: Result)
    ensures ToSuccess(r).Ok? != ToProblemDetails(r).Ok?
  {
  }

  /** The success/problem asymmetry: a success response carries `warnings`
      only when there are warnings, a problem response always carries both
      `errors` and `warnings`, each as long as the list it projects. */
  lemma WarningsAsymmetry(r: Result)
    ensures r.IsSuccess() ==>
      Lookup(ToResponse(r).success.extensions, "warnings") ==
        (if r.warnings == [] then Wrappers.None else Wrappers.Some(Project(r.warnings)))
    ensures r.IsSuccess() ==> Lookup(ToResponse(r).success.extensions, "errors") == Wrappers.None
    ensures r.IsFailure() ==>
      Lookup(ToResponse(r).problem.extensions, "errors") == Wrappers.Some(Project(r.errors)) &&
      Lookup(ToResponse(r).problem.extensions, "warnings") == Wrappers.Some(Project(r.warnings))
    ensures r.IsFailure() ==>
      |Lookup(ToResponse(r).problem.extensions, "errors").value| == |r.errors| &&
      |Lookup(ToResponse(r).problem.extensions, "warnings").value| == |r.warnings|
  {
  }
}
