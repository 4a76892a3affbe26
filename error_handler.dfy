/**
 * The centralised error translator: every error passed to `next(err)` by a
 * validator, a gate or a wrapped controller ends here and is turned into one
 * failure envelope.
 */
module ErrorHandler {
  import opened Domain

  /**
   * Details of a celebrate (Joi) validation error, one list of detail
   * messages per request segment. An empty list means the segment did not
   * fail; Joi never reports a failing segment with no details.
   */
  datatype CelebrateDetails = CelebrateDetails(body: seq<string>, params: seq<string>, query: seq<string>)

  /**
   * An error reaching the handler: `celebrate` is present exactly when
   * isCelebrateError(err) holds; `status` is the error's own status field,
   * absent when undefined.
   */
  datatype AppError = AppError(
    celebrate: Option<CelebrateDetails>,
    name: string,
    status: Option<int>,
    message: string)

  const UnauthorizedName: string := "UnauthorizedError"
  const LoginFirstMessage: string := "Please login first"
  const GenericErrorMessage: string := "O Ooo! Something Went Wrong!"

  predicate IsValidationError(err: AppError) {
    err.celebrate.Some?
  }

  /** The segment whose details are reported: body, else params, else query. */
  function ReportedSegment(d: CelebrateDetails): (r: seq<string>)
    ensures r == [] <==> d.body == [] && d.params == [] && d.query == []
    ensures r == d.body || r == d.params || r == d.query
  {
    if |d.body| > 0 then d.body
    else if |d.params| > 0 then d.params
    else d.query
  }

  /**
   * The answer sent for `err`, or None when the handler itself throws: a
   * validation error none of whose body, params or query segments failed
   * leaves `errorBody` undefined, and destructuring it raises.
   */
  function Classify(err: AppError): (r: Option<Response>)
    ensures r.Some? ==> !r.value.success && r.value.data == Empty
    ensures r.None? <==> IsValidationError(err) && ReportedSegment(err.celebrate.value) == []
    ensures r.Some? && r.value.status != HttpOk ==> !IsValidationError(err)
  {
    if IsValidationError(err) then
      var details := ReportedSegment(err.celebrate.value);
      if |details| == 0 then None
      else Some(Failure(details[0], HttpOk))
    else if err.name == UnauthorizedName then
      Some(Failure(LoginFirstMessage, HttpUnauthorized))
    else
      Some(Failure(GenericErrorMessage, if err.status.Some? then err.status.value else HttpInternalError))
  }

  /** A validation error is answered as such whatever its name and status. */
  lemma ValidationTakesPrecedence(err: AppError, name: string, status: Option<int>)
    requires IsValidationError(err)
    ensures Classify(err.(name := name, status := status)) == Classify(err)
    ensures err.name == UnauthorizedName && ReportedSegment(err.celebrate.value) != [] ==>
              Classify(err).value.status == HttpOk
  {
  }

  /** Body details win over params, params over query; the first detail is the message, status 200. */
  lemma ValidationReportsFirstDetail(err: AppError)
    requires IsValidationError(err)
    ensures var d := err.celebrate.value;
      && (d.body != [] ==> Classify(err) == Some(Failure(d.body[0], HttpOk)))
      && (d.body == [] && d.params != [] ==> Classify(err) == Some(Failure(d.params[0], HttpOk)))
      && (d.body == [] && d.params == [] && d.query != [] ==> Classify(err) == Some(Failure(d.query[0], HttpOk)))
  {
  }

  /** A non-validation UnauthorizedError becomes 401 "Please login first", whatever its own status. */
  lemma UnauthorizedIsLoginFirst(err: AppError)
    requires !IsValidationError(err) && err.name == UnauthorizedName
    ensures Classify(err) == Some(Failure(LoginFirstMessage, HttpUnauthorized))
  {
  }

  /**
   * Every other error gets the fixed generic message, never its own message,
   * and its own status or 500.
   */
  lemma OtherErrorsAreGeneric(err: AppError, message: string)
    requires !IsValidationError(err) && err.name != UnauthorizedName
    ensures Classify(err) == Classify(err.(message := message))
    ensures Classify(err).value.message == GenericErrorMessage
    ensures err.status.Some? ==> Classify(err).value.status == err.status.value
    ensures err.status.None? ==> Classify(err).value.status == HttpInternalError
  {
  }
}
