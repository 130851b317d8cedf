/**
 * The rating service's exception handler: which HTTP status and which error
 * body each kind of exception thrown by a controller is answered with.
 */
module RatingErrors {
  import opened Text

  /** The Spring `HttpStatus` constants the handler uses. */
  datatype HttpStatus = BAD_REQUEST | FORBIDDEN | NOT_FOUND | CONFLICT | INTERNAL_SERVER_ERROR {
    function Value(): nat {
      match this
      case BAD_REQUEST => 400
      case FORBIDDEN => 403
      case NOT_FOUND => 404
      case CONFLICT => 409
      case INTERNAL_SERVER_ERROR => 500
    }

    function Name(): string {
      match this
      case BAD_REQUEST => "BAD_REQUEST"
      case FORBIDDEN => "FORBIDDEN"
      case NOT_FOUND => "NOT_FOUND"
      case CONFLICT => "CONFLICT"
      case INTERNAL_SERVER_ERROR => "INTERNAL_SERVER_ERROR"
    }

    function ReasonPhrase(): string {
      match this
      case BAD_REQUEST => "Bad Request"
      case FORBIDDEN => "Forbidden"
      case NOT_FOUND => "Not Found"
      case CONFLICT => "Conflict"
      case INTERNAL_SERVER_ERROR => "Internal Server Error"
    }

    /** The three decimal digits of the status code. */
    function Code(): string {
      match this
      case BAD_REQUEST => "400"
      case FORBIDDEN => "403"
      case NOT_FOUND => "404"
      case CONFLICT => "409"
      case INTERNAL_SERVER_ERROR => "500"
    }

    /** `HttpStatus.toString()`: the decimal code, a space, and the constant's name. */
    function ToString(): string {
      Code() + " " + Name()
    }
  }

  /** A field error of a failed request binding. */
  datatype FieldError = FieldError(field: string, defaultMessage: string)

  /** A bean validation failure: the validated bean's class name, the property path and the message. */
  datatype ConstraintViolation = ConstraintViolation(rootBeanClassName: string, propertyPath: string, message: string)

  /** The exception kinds the handler tells apart; every exception without a handler of its own is `OtherException`. */
  datatype ApiException =
    | NotFoundException(message: string)
    | BadRequestException(message: string)
    | ResourceExistedException(message: string)
    | MethodArgumentNotValidException(fieldErrors: seq<FieldError>)
    | ConstraintViolationException(violations: seq<ConstraintViolation>)
    | AccessDeniedException(message: string)
    | OtherException(message: string)
  {
    predicate IsValidation() {
      MethodArgumentNotValidException? || ConstraintViolationException?
    }

    /** How many entries the failure reports: field errors or violations. */
    function ErrorCount(): nat {
      match this
      case MethodArgumentNotValidException(errors) => |errors|
      case ConstraintViolationException(violations) => |violations|
      case _ => 0
    }
  }

  /** The error body; the three-argument constructor gives an empty list of field errors. */
  datatype ErrorVm = ErrorVm(statusCode: string, title: string, detail: string, fieldErrors: seq<string>)

  datatype Response = Response(status: HttpStatus, body: ErrorVm)

  function FieldErrorText(e: FieldError): string {
    e.field + " " + e.defaultMessage
  }

  function ViolationText(v: ConstraintViolation): string {
    v.rootBeanClassName + " " + v.propertyPath + ": " + v.message
  }

  /** One entry per field error, in order. */
  function FieldErrorTexts(errors: seq<FieldError>): (r: seq<string>)
    ensures |r| == |errors|
    ensures forall i :: 0 <= i < |r| ==> r[i] == FieldErrorText(errors[i])
  {
    if errors == [] then [] else FieldErrorTexts(errors[..|errors| - 1]) + [FieldErrorText(errors[|errors| - 1])]
  }

  /** One entry per violation, in the order the violations are visited. */
  function ViolationTexts(violations: seq<ConstraintViolation>): (r: seq<string>)
    ensures |r| == |violations|
    ensures forall i :: 0 <= i < |r| ==> r[i] == ViolationText(violations[i])
  {
    if violations == [] then []
    else ViolationTexts(violations[..|violations| - 1]) + [ViolationText(violations[|violations| - 1])]
  }

  const InvalidRequest := "Request information is not valid"

  /** The response the handler answers each exception with. */
  function Handle(ex: ApiException): (r: Response)
    ensures r.status == INTERNAL_SERVER_ERROR <==> ex.OtherException?
    ensures r.status == BAD_REQUEST <==> ex.BadRequestException? || ex.IsValidation()
    ensures !ex.IsValidation() ==> r.body.detail == ex.message && r.body.fieldErrors == []
    ensures ex.IsValidation() ==> r.body.detail == InvalidRequest && |r.body.fieldErrors| == ex.ErrorCount()
  {
    match ex
    case NotFoundException(message) =>
      Response(NOT_FOUND, ErrorVm(NOT_FOUND.ToString(), "NotFound", message, []))
    case BadRequestException(message) =>
      Response(BAD_REQUEST, ErrorVm(BAD_REQUEST.ToString(), "Bad request", message, []))
    case ResourceExistedException(message) =>
      Response(CONFLICT, ErrorVm(CONFLICT.ToString(), "Resource has existed", message, []))
    case MethodArgumentNotValidException(errors) =>
      Response(BAD_REQUEST, ErrorVm("400", "Bad Request", InvalidRequest, FieldErrorTexts(errors)))
    case ConstraintViolationException(violations) =>
      Response(BAD_REQUEST, ErrorVm("400", "Bad Request", InvalidRequest, ViolationTexts(violations)))
    case AccessDeniedException(message) =>
      Response(FORBIDDEN, ErrorVm(FORBIDDEN.ToString(), "Access Denied", message, []))
    case OtherException(message) =>
      Response(INTERNAL_SERVER_ERROR,
               ErrorVm(INTERNAL_SERVER_ERROR.ToString(), INTERNAL_SERVER_ERROR.ReasonPhrase(), message, []))
  }

  /** `handleConstraintViolation`: the loop appending one entry per violation. */
  method HandleConstraintViolation(violations: seq<ConstraintViolation>) returns (r: Response)
    ensures r == Handle(ConstraintViolationException(violations))
    ensures r.status == BAD_REQUEST && r.body.title == "Bad Request"
    ensures |r.body.fieldErrors| == |violations|
    ensures forall i :: 0 <= i < |violations| ==> r.body.fieldErrors[i] == ViolationText(violations[i])
  {
    var errors: seq<string> := [];
    for i := 0 to |violations|
      invariant errors == ViolationTexts(violations[..i])
    {
      assert violations[..i + 1][..i] == violations[..i];
      errors := errors + [ViolationText(violations[i])];
    }
    assert violations[..|violations|] == violations;
    r := Response(BAD_REQUEST, ErrorVm("400", "Bad Request", InvalidRequest, errors));
  }

  predicate StartsWith(s: string, prefix: string) {
    |prefix| <= |s| && s[..|prefix|] == prefix
  }

  /** `Code()` is the decimal rendering of the status value. */
  lemma CodeIsDecimal(status: HttpStatus)
    ensures AllDigits(status.Code()) && DigitsValue(status.Code()) == status.Value()
  {
    var c := status.Code();
    assert |c| == 3 && AllDigits(c);
    assert DigitsValue(c[..1]) == c[0] as int - '0' as int by { assert c[..1][..0] == []; }
    assert c[..2][..1] == c[..1];
    assert c[..3][..2] == c[..2] && c[..3] == c;
  }

  /** The code written into the body agrees with the status of the response: it begins with the status's decimal digits. */
  lemma StatusCodeAgrees(ex: ApiException)
    ensures StartsWith(Handle(ex).body.statusCode, Handle(ex).status.Code())
    ensures DigitsValue(Handle(ex).status.Code()) == Handle(ex).status.Value()
  {
    var r := Handle(ex);
    var code := r.status.Code();
    CodeIsDecimal(r.status);
    if !ex.IsValidation() {
      assert r.body.statusCode == code + " " + r.status.Name();
      assert (code + " " + r.status.Name())[..|code|] == code;
    }
  }

  /** The status and title each exception kind is answered with. */
  lemma ResponseTable(ex: ApiException)
    ensures ex.NotFoundException? ==> Handle(ex).status.Value() == 404 && Handle(ex).body.title == "NotFound"
    ensures ex.BadRequestException? ==> Handle(ex).status.Value() == 400 && Handle(ex).body.title == "Bad request"
    ensures ex.ResourceExistedException? ==>
      Handle(ex).status.Value() == 409 && Handle(ex).body.title == "Resource has existed"
    ensures ex.IsValidation() ==> Handle(ex).status.Value() == 400 && Handle(ex).body.title == "Bad Request"
    ensures ex.AccessDeniedException? ==> Handle(ex).status.Value() == 403 && Handle(ex).body.title == "Access Denied"
    ensures ex.OtherException? ==>
      Handle(ex).status.Value() == 500 && Handle(ex).body.title == "Internal Server Error"
  {
  }

  /** Every kind but the catch-all is answered with a client error. */
  lemma ClientErrors(ex: ApiException)
    ensures 400 <= Handle(ex).status.Value() < 500 <==> !ex.OtherException?
  {
  }
}
