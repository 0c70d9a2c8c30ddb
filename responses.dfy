/**
 * Response codes, the API envelope, the service exception and the mapping
 * of a response code to an HTTP status performed by the base controller.
 */
module Responses {
  import opened Wrappers

  /**
   * The named response codes the services use. The first fourteen are listed in
   * the response-code enum with their code string and message; the image and
   * login codes are referred to by the services but their values are not part
   * of this model, so they are kept symbolic.
   */
  datatype CodeName =
    | Success | PartialSuccess | OperationFailed | NotFound | InternalServerError
    | TransformerNotCreated | InspectionNotCreated | InspectionNotUpdated | TransformerNotUpdated
    | InspectionNotConnected | TransformerNotConnected | InspectionNotDeleted | TransformerNotDeleted
    | BadRequest
    | ImageNotCreated | ImageNotConnected | ImageNotUpdated | ImageNotDeleted | ImageNotDetected
    | UserNotCreated

  /** The code has a known code string and message. */
  predicate Listed(n: CodeName)
  {
    !(n.ImageNotCreated? || n.ImageNotConnected? || n.ImageNotUpdated? || n.ImageNotDeleted?
      || n.ImageNotDetected? || n.UserNotCreated?)
  }

  function CodeOf(n: CodeName): (r: string)
    requires Listed(n)
    ensures |r| == 4
  {
    match n
    case Success => "2000"
    case PartialSuccess => "2007"
    case NotFound => "4000"
    case BadRequest => "4000"
    case _ => "5000"
  }

  function MessageOf(n: CodeName): string
    requires Listed(n)
  {
    match n
    case Success => "Operation Successful"
    case PartialSuccess => "Partial Success"
    case OperationFailed => "Operation Failed!"
    case NotFound => "Not found"
    case InternalServerError => "Internal Server Error"
    case TransformerNotCreated => "Transformer is partially created or not created"
    case InspectionNotCreated => "Inspection is partially created or not created"
    case InspectionNotUpdated => "Inspection is partially updated or not updated"
    case TransformerNotUpdated => "Transformer is partially updated or not updated"
    case InspectionNotConnected => "Inspection is not connected"
    case TransformerNotConnected => "Transformer is not connected"
    case InspectionNotDeleted => "Inspection is not deleted"
    case TransformerNotDeleted => "Transformer is not deleted"
    case BadRequest => "Bad Request"
  }

  /** An exception message: either an enum's own message or a literal text. */
  datatype Description = EnumMessage(name: CodeName) | Text(text: string)

  /** The service exception: an optional response code and a message. */
  datatype Failure = Failure(code: Option<CodeName>, description: Description)

  /** `new BaseException(X.code(), X.message())` */
  function Raise(n: CodeName): Failure { Failure(Some(n), EnumMessage(n)) }

  /** `new BaseException(X.code(), text)` */
  function RaiseWith(n: CodeName, text: string): Failure { Failure(Some(n), Text(text)) }

  /** `new BaseException(text)`, which carries no response code. */
  function RaiseText(text: string): Failure { Failure(None, Text(text)) }

  /** The message text of a failure; the unlisted enum messages come from `unlisted`. */
  function MessageText(f: Failure, unlisted: CodeName -> string): string
  {
    match f.description
    case Text(t) => t
    case EnumMessage(n) => if Listed(n) then MessageOf(n) else unlisted(n)
  }

  /** Page metadata, every number rendered as a string. */
  datatype PageDetail = PageDetail(totalRecords: string, pageNumber: string, pageElementCount: string)

  /** The payload of a response that carries none. */
  type Void = ()

  /** The JSON envelope every endpoint returns. */
  datatype ApiResponse<T> = ApiResponse(code: string, description: Option<string>, data: Option<T>, page: Option<PageDetail>)

  /** A response built from a listed enum constant and an optional payload. */
  function Respond<T>(n: CodeName, data: Option<T>): (r: ApiResponse<T>)
    requires Listed(n)
    ensures r.code == CodeOf(n) && r.description == Some(MessageOf(n)) && r.data == data && r.page.None?
  {
    ApiResponse(CodeOf(n), Some(MessageOf(n)), data, None)
  }

  /** The controller reply: an HTTP status and the body, which is the response unchanged. */
  datatype Reply<T> = Reply(status: nat, body: ApiResponse<T>)

  /**
   * `setResponseEntity`: the status depends only on the response code. Success
   * codes give 200, partial success 207, the client-error codes 400, "4003" 422,
   * and every other code 500. The body is passed through untouched.
   */
  function SetResponseEntity<T>(resp: ApiResponse<T>): (r: Reply<T>)
    ensures r.body == resp
    ensures r.status == 200 <==> resp.code == "2000" || resp.code == "2001"
    ensures r.status == 207 <==> resp.code == "2007"
    ensures r.status == 400 <==> resp.code == "4000" || resp.code == "4001"
    ensures r.status == 422 <==> resp.code == "4003"
    ensures r.status == 500 <==> !(resp.code in ["2000", "2001", "2007", "4000", "4001", "4003"])
  {
    var status :=
      if resp.code == "2000" || resp.code == "2001" then 200
      else if resp.code == "2007" then 207
      else if resp.code == "4000" || resp.code == "4001" then 400
      else if resp.code == "4003" then 422
      else 500;
    Reply(status, resp)
  }

  /**
   * Not-found and bad-request share the code "4000", so both reach the client
   * as 400; every listed failure code other than these is a 500.
   */
  lemma ListedCodeStatus<T>(n: CodeName, data: Option<T>)
    requires Listed(n)
    ensures var s := SetResponseEntity(Respond(n, data)).status;
      (n == Success ==> s == 200) && (n == PartialSuccess ==> s == 207)
      && (n == NotFound || n == BadRequest <==> s == 400)
      && (n != Success && n != PartialSuccess && n != NotFound && n != BadRequest ==> s == 500)
  {
  }
}
