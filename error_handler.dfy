/** The central error handler: what HTTP status and JSON body a thrown value
    turns into, and the custom error classes the services throw. */
module ErrorHandler {
  import opened Common

  /** One step of a zod issue path: an object key or an array index. */
  datatype PathSegment = Key(key: string) | Index(index: nat)

  datatype ZodIssue = ZodIssue(path: seq<PathSegment>, message: string)

  /** What a handler can be given: a zod validation error, any other `Error`
      (its `name`, `message`, `stack`, and the `details` a ValidationError
      carries), or a value that is not an `Error` at all. */
  datatype Thrown =
    | ZodError(issues: seq<ZodIssue>)
    | ErrorObject(name: string, message: string, stack: Option<string>, details: Option<Value>)
    | NonError(value: Value)

  /** One entry of the response's `details`. */
  datatype Detail = Detail(path: string, message: string)

  /** The JSON body; an absent option is a key the body does not have. */
  datatype ErrorResponse = ErrorResponse(error: string, details: Option<seq<Detail>>, stack: Option<string>)

  const DefaultMessage: string := "An unexpected error occurred"
  const ValidationMessage: string := "Validation error"
  const Development: string := "development"

  // ------------------------------------------------------------ path join

  function SegmentText(p: PathSegment): string {
    match p
    case Key(k) => k
    case Index(i) => NatToString(i)
  }

  /** `parts.join('.')`. */
  function Join(parts: seq<string>): (r: string)
    ensures |parts| <= 1 ==> r == (if parts == [] then "" else parts[0])
  {
    if parts == [] then ""
    else if |parts| == 1 then parts[0]
    else parts[0] + "." + Join(parts[1..])
  }

  /** `path.join('.')`: keys as they are, indices in decimal. */
  function JoinPath(path: seq<PathSegment>): string {
    Join(seq(|path|, i requires 0 <= i < |path| => SegmentText(path[i])))
  }

  /** `s.split('.')`, the partner of Join. */
  function Split(s: string): (r: seq<string>)
    ensures |r| >= 1
  {
    if s == [] then [""]
    else if s[0] == '.' then [""] + Split(s[1..])
    else
      var rest := Split(s[1..]);
      [[s[0]] + rest[0]] + rest[1..]
  }

  predicate NoDot(s: string) {
    forall k :: 0 <= k < |s| ==> s[k] != '.'
  }

  lemma {:induction false} SplitNoDot(p: string)
    requires NoDot(p)
    ensures Split(p) == [p]
    decreases |p|
  {
    if p != [] {
      SplitNoDot(p[1..]);
      assert [p[0]] + p[1..] == p;
    }
  }

  lemma {:induction false} SplitAfterPart(p: string, rest: string)
    requires NoDot(p)
    ensures Split(p + "." + rest) == [p] + Split(rest)
    decreases |p|
  {
    if p == [] {
      assert p + "." + rest == "." + rest;
      assert ("." + rest)[1..] == rest;
    } else {
      var s := p + "." + rest;
      assert s[0] == p[0] && s[1..] == p[1..] + "." + rest;
      SplitAfterPart(p[1..], rest);
      assert [p[0]] + p[1..] == p;
    }
  }

  /** Splitting a joined path gives its parts back, when no part holds a
      dot and there is at least one part. */
  lemma {:induction false} SplitJoin(parts: seq<string>)
    requires |parts| >= 1
    requires forall i :: 0 <= i < |parts| ==> NoDot(parts[i])
    ensures Split(Join(parts)) == parts
    decreases |parts|
  {
    if |parts| == 1 {
      SplitNoDot(parts[0]);
    } else {
      SplitAfterPart(parts[0], Join(parts[1..]));
      SplitJoin(parts[1..]);
      assert [parts[0]] + parts[1..] == parts;
    }
  }

  /** The details a zod error reports: one per issue, in order, with the
      issue's message and its joined path. */
  function DetailsFor(issues: seq<ZodIssue>): (r: seq<Detail>)
    ensures |r| == |issues|
    ensures forall i :: 0 <= i < |issues| ==> r[i].message == issues[i].message && r[i].path == JoinPath(issues[i].path)
  {
    seq(|issues|, i requires 0 <= i < |issues| => Detail(JoinPath(issues[i].path), issues[i].message))
  }

  // -------------------------------------------------------- classification

  /** The status a thrown value gets. */
  function StatusFor(e: Thrown): (code: int)
    ensures code == 400 <==> e.ZodError?
    ensures code == 404 <==> e.ErrorObject? && e.name == "NotFoundError"
    ensures code == 401 <==> e.ErrorObject? && e.name == "UnauthorizedError"
    ensures code == 409 <==> e.ErrorObject? && e.name == "ConflictError"
    ensures code == 500 <==> e.NonError? || (e.ErrorObject? && e.name !in {"NotFoundError", "UnauthorizedError", "ConflictError"})
  {
    match e
    case ZodError(_) => 400
    case ErrorObject(name, _, _, _) =>
      if name == "NotFoundError" then 404
      else if name == "UnauthorizedError" then 401
      else if name == "ConflictError" then 409
      else 500
    case NonError(_) => 500
  }

  /** `customMessage || "An unexpected error occurred"`: an absent or empty
      message falls back to the default. */
  function Fallback(customMessage: Option<string>): (r: string)
    ensures customMessage.Some? && customMessage.value != "" ==> r == customMessage.value
    ensures customMessage.None? || customMessage == Some("") ==> r == DefaultMessage
  {
    if customMessage.Some? && customMessage.value != "" then customMessage.value else DefaultMessage
  }

  /** The body a thrown value gets. */
  function ResponseFor(e: Thrown, customMessage: Option<string>, nodeEnv: Option<string>): (r: ErrorResponse)
    ensures e.ZodError? ==> r == ErrorResponse(ValidationMessage, Some(DetailsFor(e.issues)), None)
    ensures e.ErrorObject? ==> r.error == e.message && r.details.None?
    ensures e.ErrorObject? ==> r.stack == (if nodeEnv == Some(Development) then e.stack else None)
    ensures e.NonError? ==> r == ErrorResponse(Fallback(customMessage), None, None)
  {
    match e
    case ZodError(issues) => ErrorResponse(ValidationMessage, Some(DetailsFor(issues)), None)
    case ErrorObject(_, message, stack, _) =>
      ErrorResponse(message, None, if nodeEnv == Some(Development) then stack else None)
    case NonError(_) => ErrorResponse(Fallback(customMessage), None, None)
  }

  /** `handleError`: starts from the default body and status 500 and
      overwrites them branch by branch. */
  method HandleError(error: Thrown, customMessage: Option<string>, nodeEnv: Option<string>)
    returns (statusCode: int, body: ErrorResponse)
    ensures statusCode == StatusFor(error) && body == ResponseFor(error, customMessage, nodeEnv)
    ensures body.stack.Some? ==> nodeEnv == Some(Development) && error.ErrorObject?
    ensures body.details.Some? <==> error.ZodError?
  {
    body := ErrorResponse(Fallback(customMessage), None, None);
    statusCode := 500;
    if error.ZodError? {
      statusCode := 400;
      body := body.(error := ValidationMessage);
      body := body.(details := Some(DetailsFor(error.issues)));
    } else if error.ErrorObject? {
      if error.name == "NotFoundError" {
        statusCode := 404;
      } else if error.name == "UnauthorizedError" {
        statusCode := 401;
      } else if error.name == "ConflictError" {
        statusCode := 409;
      }
      body := body.(error := error.message);
      if nodeEnv == Some(Development) {
        body := body.(stack := error.stack);
      }
    }
  }

  // ---------------------------------------------------- custom error classes

  /** `new NotFoundError(message)`; `stack` is what the runtime records. */
  function NewNotFoundError(message: string, stack: Option<string>): (e: Thrown)
    ensures e.ErrorObject? && e.name == "NotFoundError" && e.message == message && e.stack == stack
  {
    ErrorObject("NotFoundError", message, stack, None)
  }

  function NewUnauthorizedError(message: string, stack: Option<string>): (e: Thrown)
    ensures e.ErrorObject? && e.name == "UnauthorizedError" && e.message == message && e.stack == stack
  {
    ErrorObject("UnauthorizedError", message, stack, None)
  }

  function NewConflictError(message: string, stack: Option<string>): (e: Thrown)
    ensures e.ErrorObject? && e.name == "ConflictError" && e.message == message && e.stack == stack
  {
    ErrorObject("ConflictError", message, stack, None)
  }

  /** `new ValidationError(message, details)`: keeps its details. */
  function NewValidationError(message: string, details: Option<Value>, stack: Option<string>): (e: Thrown)
    ensures e.ErrorObject? && e.name == "ValidationError" && e.message == message && e.details == details && e.stack == stack
  {
    ErrorObject("ValidationError", message, stack, details)
  }

  /** Each custom class gets its status; ValidationError is not one the
      handler singles out, so it answers 500 and its details do not reach
      the body. */
  lemma CustomErrorStatuses(message: string, details: Option<Value>, stack: Option<string>,
                            customMessage: Option<string>, nodeEnv: Option<string>)
    ensures StatusFor(NewNotFoundError(message, stack)) == 404
    ensures StatusFor(NewUnauthorizedError(message, stack)) == 401
    ensures StatusFor(NewConflictError(message, stack)) == 409
    ensures StatusFor(NewValidationError(message, details, stack)) == 500
    ensures ResponseFor(NewValidationError(message, details, stack), customMessage, nodeEnv).details.None?
  {
  }

  /** For an `Error`, even one with an empty message, the custom message is
      never used. */
  lemma ErrorMessageWins(name: string, stack: Option<string>, customMessage: Option<string>, nodeEnv: Option<string>)
    ensures ResponseFor(ErrorObject(name, "", stack, None), customMessage, nodeEnv).error == ""
  {
  }

  /** The paths in the details can be split back into their segments'
      texts, when no key holds a dot. */
  lemma DetailPathsSplit(issues: seq<ZodIssue>, i: nat)
    requires i < |issues| && |issues[i].path| >= 1
    requires forall j :: 0 <= j < |issues[i].path| ==> NoDot(SegmentText(issues[i].path[j]))
    ensures var path := issues[i].path;
      Split(DetailsFor(issues)[i].path) == seq(|path|, j requires 0 <= j < |path| => SegmentText(path[j]))
  {
    var path := issues[i].path;
    SplitJoin(seq(|path|, j requires 0 <= j < |path| => SegmentText(path[j])));
  }
}
