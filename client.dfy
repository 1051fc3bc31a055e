/**
 * The command-line client's reading of daemon responses: every response is
 * sorted into a handled response or the error of its operation. The calls
 * that return data (list tags, list files, inspect, search) check that they
 * got the kind of answer they asked for; the others accept any success.
 */
module Client {
  import opened Wrappers
  import opened Text
  import Payload
  import Registry
  import CoreTag

  type Tag = CoreTag.Tag
  type EntryData = Registry.EntryData
  type PayloadResult<T, E> = Payload.PayloadResult<T, E>

  /** The operations a request can ask for. */
  datatype Operation =
    | TagFiles | UntagFiles | EditTag | CopyTags | ClearFiles | ClearTags
    | ListFiles | ListTags | InspectFiles | Search | Ping | ClearCache

  /** A response as the client decodes it. */
  datatype Response =
    | TagFiles(PayloadResult<(), seq<Text>>)
    | UntagFiles(PayloadResult<(), seq<Text>>)
    | EditTag(PayloadResult<(), Text>)
    | CopyTags(PayloadResult<(), seq<Text>>)
    | ClearFiles(PayloadResult<(), seq<Text>>)
    | ClearTags(PayloadResult<(), seq<Text>>)
    | ListFiles(PayloadResult<seq<(EntryData, Option<seq<Tag>>)>, Text>)
    | ListTags(PayloadResult<seq<Tag>, Text>)
    | InspectFiles(PayloadResult<seq<(EntryData, seq<Tag>)>, Text>)
    | Search(PayloadResult<seq<EntryData>, Text>)
    | Ping(PayloadResult<(), Text>)
    | ClearCache(PayloadResult<(), Text>)

  /** A successful response, with the data of the queries. */
  datatype HandledResponse =
    | TagFiles | UntagFiles | EditTag | CopyTags | ClearFiles | ClearTags
    | ListTags(tags: seq<Tag>)
    | ListFiles(files: seq<(EntryData, Option<seq<Tag>>)>)
    | InspectFiles(inspected: seq<(EntryData, seq<Tag>)>)
    | Search(found: seq<EntryData>)
    | Ping | ClearCache

  datatype ClientError =
    | TagFiles(Text) | UntagFiles(Text) | EditTag(Text) | CopyTags(Text)
    | ClearFiles(Text) | ClearTags(Text) | ListFiles(Text) | ListTags(Text)
    | InspectFiles(Text) | Search(Text) | Ping(Text) | ClearCache(Text)
    | UnexpectedResponse(HandledResponse)

  function ResponseOperation(r: Response): Operation
  {
    match r
    case TagFiles(_) => Operation.TagFiles
    case UntagFiles(_) => Operation.UntagFiles
    case EditTag(_) => Operation.EditTag
    case CopyTags(_) => Operation.CopyTags
    case ClearFiles(_) => Operation.ClearFiles
    case ClearTags(_) => Operation.ClearTags
    case ListFiles(_) => Operation.ListFiles
    case ListTags(_) => Operation.ListTags
    case InspectFiles(_) => Operation.InspectFiles
    case Search(_) => Operation.Search
    case Ping(_) => Operation.Ping
    case ClearCache(_) => Operation.ClearCache
  }

  function HandledOperation(h: HandledResponse): Operation
  {
    match h
    case TagFiles => Operation.TagFiles
    case UntagFiles => Operation.UntagFiles
    case EditTag => Operation.EditTag
    case CopyTags => Operation.CopyTags
    case ClearFiles => Operation.ClearFiles
    case ClearTags => Operation.ClearTags
    case ListFiles(_) => Operation.ListFiles
    case ListTags(_) => Operation.ListTags
    case InspectFiles(_) => Operation.InspectFiles
    case Search(_) => Operation.Search
    case Ping => Operation.Ping
    case ClearCache => Operation.ClearCache
  }

  /** The error of an operation carrying the given text. */
  function Failed(op: Operation, message: Text): (e: ClientError)
    ensures !e.UnexpectedResponse?
  {
    match op
    case TagFiles => ClientError.TagFiles(message)
    case UntagFiles => ClientError.UntagFiles(message)
    case EditTag => ClientError.EditTag(message)
    case CopyTags => ClientError.CopyTags(message)
    case ClearFiles => ClientError.ClearFiles(message)
    case ClearTags => ClientError.ClearTags(message)
    case ListFiles => ClientError.ListFiles(message)
    case ListTags => ClientError.ListTags(message)
    case InspectFiles => ClientError.InspectFiles(message)
    case Search => ClientError.Search(message)
    case Ping => ClientError.Ping(message)
    case ClearCache => ClientError.ClearCache(message)
  }

  /** The operation and text of an operation's error. */
  function FailedParts(e: ClientError): (Operation, Text)
    requires !e.UnexpectedResponse?
  {
    match e
    case TagFiles(m) => (Operation.TagFiles, m)
    case UntagFiles(m) => (Operation.UntagFiles, m)
    case EditTag(m) => (Operation.EditTag, m)
    case CopyTags(m) => (Operation.CopyTags, m)
    case ClearFiles(m) => (Operation.ClearFiles, m)
    case ClearTags(m) => (Operation.ClearTags, m)
    case ListFiles(m) => (Operation.ListFiles, m)
    case ListTags(m) => (Operation.ListTags, m)
    case InspectFiles(m) => (Operation.InspectFiles, m)
    case Search(m) => (Operation.Search, m)
    case Ping(m) => (Operation.Ping, m)
    case ClearCache(m) => (Operation.ClearCache, m)
  }

  /** Each operation's error keeps the operation and the text apart. */
  lemma FailedIsInjective(op: Operation, message: Text)
    ensures FailedParts(Failed(op, message)) == (op, message)
  {
  }

  const SEPARATOR: Text := "\n - "

  /** `format_multiple_errors`: the separator, then the errors joined by it. */
  function FormatMultipleErrors(errors: seq<Text>): (r: Text)
    ensures |r| >= |SEPARATOR| && r[..|SEPARATOR|] == SEPARATOR
  {
    SEPARATOR + (if errors == [] then [] else Join(errors, SEPARATOR))
  }

  /** Every error on a line of its own, each behind a bullet. */
  function Bulleted(errors: seq<Text>): Text
  {
    if errors == [] then [] else SEPARATOR + errors[0] + Bulleted(errors[1..])
  }

  /**
   * The formatted list is one bullet per error; an empty list still shows
   * a lone bullet.
   */
  lemma {:induction false} FormatIsBulleted(errors: seq<Text>)
    ensures errors != [] ==> FormatMultipleErrors(errors) == Bulleted(errors)
    ensures errors == [] ==> FormatMultipleErrors(errors) == SEPARATOR
    decreases |errors|
  {
    if |errors| > 1 {
      FormatIsBulleted(errors[1..]);
      assert FormatMultipleErrors(errors) == SEPARATOR + errors[0] + (SEPARATOR + Join(errors[1..], SEPARATOR));
    }
  }

  /** Operations whose errors come as a list. */
  predicate Batched(op: Operation)
  {
    op in {Operation.TagFiles, Operation.UntagFiles, Operation.CopyTags, Operation.ClearFiles, Operation.ClearTags}
  }

  /** Whether the daemon reported success. */
  predicate Succeeded(r: Response)
  {
    match r
    case TagFiles(p) => p.Ok?
    case UntagFiles(p) => p.Ok?
    case EditTag(p) => p.Ok?
    case CopyTags(p) => p.Ok?
    case ClearFiles(p) => p.Ok?
    case ClearTags(p) => p.Ok?
    case ListFiles(p) => p.Ok?
    case ListTags(p) => p.Ok?
    case InspectFiles(p) => p.Ok?
    case Search(p) => p.Ok?
    case Ping(p) => p.Ok?
    case ClearCache(p) => p.Ok?
  }

  /** The error list of a failed batched response. */
  function ErrorList(r: Response): seq<Text>
    requires !Succeeded(r) && Batched(ResponseOperation(r))
  {
    match r
    case TagFiles(p) => p.error
    case UntagFiles(p) => p.error
    case CopyTags(p) => p.error
    case ClearFiles(p) => p.error
    case ClearTags(p) => p.error
  }

  /** The error text of a failed single-error response. */
  function ErrorText(r: Response): Text
    requires !Succeeded(r) && !Batched(ResponseOperation(r))
  {
    match r
    case EditTag(p) => p.error
    case ListFiles(p) => p.error
    case ListTags(p) => p.error
    case InspectFiles(p) => p.error
    case Search(p) => p.error
    case Ping(p) => p.error
    case ClearCache(p) => p.error
  }

  /**
   * `handle_error`: a success becomes the handled response of the same
   * operation; a failure becomes that operation's error, with a list of
   * errors formatted and a single error passed through.
   */
  function HandleError(response: Response): (r: Result<HandledResponse, ClientError>)
    ensures r.Ok? <==> Succeeded(response)
    ensures r.Ok? ==> HandledOperation(r.value) == ResponseOperation(response)
  {
    match response
    case TagFiles(p) =>
      if p.Error? then Err(ClientError.TagFiles(FormatMultipleErrors(p.error))) else Ok(HandledResponse.TagFiles)
    case UntagFiles(p) =>
      if p.Error? then Err(ClientError.UntagFiles(FormatMultipleErrors(p.error))) else Ok(HandledResponse.UntagFiles)
    case EditTag(p) =>
      if p.Error? then Err(ClientError.EditTag(p.error)) else Ok(HandledResponse.EditTag)
    case CopyTags(p) =>
      if p.Error? then Err(ClientError.CopyTags(FormatMultipleErrors(p.error))) else Ok(HandledResponse.CopyTags)
    case ClearFiles(p) =>
      if p.Error? then Err(ClientError.ClearFiles(FormatMultipleErrors(p.error))) else Ok(HandledResponse.ClearFiles)
    case ClearTags(p) =>
      if p.Error? then Err(ClientError.ClearTags(FormatMultipleErrors(p.error))) else Ok(HandledResponse.ClearTags)
    case ListFiles(p) =>
      if p.Error? then Err(ClientError.ListFiles(p.error)) else Ok(HandledResponse.ListFiles(p.value))
    case ListTags(p) =>
      if p.Error? then Err(ClientError.ListTags(p.error)) else Ok(HandledResponse.ListTags(p.value))
    case InspectFiles(p) =>
      if p.Error? then Err(ClientError.InspectFiles(p.error)) else Ok(HandledResponse.InspectFiles(p.value))
    case Search(p) =>
      if p.Error? then Err(ClientError.Search(p.error)) else Ok(HandledResponse.Search(p.value))
    case Ping(p) =>
      if p.Error? then Err(ClientError.Ping(p.error)) else Ok(HandledResponse.Ping)
    case ClearCache(p) =>
      if p.Error? then Err(ClientError.ClearCache(p.error)) else Ok(HandledResponse.ClearCache)
  }

  /**
   * A failure is reported as the error of the operation that failed: the
   * batched operations' message lists formatted, the others' message as is.
   */
  lemma HandleErrorMessage(response: Response)
    requires !Succeeded(response)
    ensures Batched(ResponseOperation(response)) ==>
      HandleError(response) == Err(Failed(ResponseOperation(response), FormatMultipleErrors(ErrorList(response))))
    ensures !Batched(ResponseOperation(response)) ==>
      HandleError(response) == Err(Failed(ResponseOperation(response), ErrorText(response)))
  {
  }

  /** The queries' data reach the caller unchanged. */
  lemma HandleErrorKeepsData(tags: seq<Tag>, files: seq<(EntryData, Option<seq<Tag>>)>, inspected: seq<(EntryData, seq<Tag>)>, found: seq<EntryData>)
    ensures HandleError(Response.ListTags(Payload.Ok(tags))) == Ok(HandledResponse.ListTags(tags))
    ensures HandleError(Response.ListFiles(Payload.Ok(files))) == Ok(HandledResponse.ListFiles(files))
    ensures HandleError(Response.InspectFiles(Payload.Ok(inspected))) == Ok(HandledResponse.InspectFiles(inspected))
    ensures HandleError(Response.Search(Payload.Ok(found))) == Ok(HandledResponse.Search(found))
  {
  }

  /**
   * Sending a request for `op` and handling the answer; `transport` is what
   * the IPC client returned, its error given as text.
   */
  function Requested(op: Operation, transport: Result<Response, Text>): (r: Result<HandledResponse, ClientError>)
    ensures transport.Err? ==> r == Err(Failed(op, transport.error))
    ensures transport.Ok? ==> r == HandleError(transport.value)
  {
    if transport.Err? then Err(Failed(op, transport.error)) else HandleError(transport.value)
  }

  /**
   * The requests without data (tag, untag, edit, copy, clear files, clear
   * tags, ping, clear cache): any success is accepted, of whichever kind.
   */
  function Acknowledged(op: Operation, transport: Result<Response, Text>): (r: Result<(), ClientError>)
    ensures r.Ok? <==> transport.Ok? && Succeeded(transport.value)
    ensures transport.Err? ==> r == Err(Failed(op, transport.error))
  {
    match Requested(op, transport)
    case Ok(_) => Ok(())
    case Err(e) => Err(e)
  }

  /** `list_tags`. */
  function ListTagsCall(transport: Result<Response, Text>): (r: Result<seq<Tag>, ClientError>)
    ensures transport.Err? ==> r == Err(ClientError.ListTags(transport.error))
    ensures r.Ok? <==> transport.Ok? && transport.value.ListTags? && Succeeded(transport.value)
    ensures r.Ok? ==> transport.value == Response.ListTags(Payload.Ok(r.value))
    ensures r.Err? && r.error.UnexpectedResponse? <==>
      transport.Ok? && Succeeded(transport.value) && ResponseOperation(transport.value) != Operation.ListTags
  {
    match Requested(Operation.ListTags, transport)
    case Err(e) => Err(e)
    case Ok(h) => if h.ListTags? then Ok(h.tags) else Err(UnexpectedResponse(h))
  }

  /** `list_files`. */
  function ListFilesCall(transport: Result<Response, Text>): (r: Result<seq<(EntryData, Option<seq<Tag>>)>, ClientError>)
    ensures transport.Err? ==> r == Err(ClientError.ListFiles(transport.error))
    ensures r.Ok? <==> transport.Ok? && transport.value.ListFiles? && Succeeded(transport.value)
    ensures r.Ok? ==> transport.value == Response.ListFiles(Payload.Ok(r.value))
    ensures r.Err? && r.error.UnexpectedResponse? <==>
      transport.Ok? && Succeeded(transport.value) && ResponseOperation(transport.value) != Operation.ListFiles
  {
    match Requested(Operation.ListFiles, transport)
    case Err(e) => Err(e)
    case Ok(h) => if h.ListFiles? then Ok(h.files) else Err(UnexpectedResponse(h))
  }

  /** `inspect_files` and `inspect_files_pattern`. */
  function InspectFilesCall(transport: Result<Response, Text>): (r: Result<seq<(EntryData, seq<Tag>)>, ClientError>)
    ensures transport.Err? ==> r == Err(ClientError.InspectFiles(transport.error))
    ensures r.Ok? <==> transport.Ok? && transport.value.InspectFiles? && Succeeded(transport.value)
    ensures r.Ok? ==> transport.value == Response.InspectFiles(Payload.Ok(r.value))
    ensures r.Err? && r.error.UnexpectedResponse? <==>
      transport.Ok? && Succeeded(transport.value) && ResponseOperation(transport.value) != Operation.InspectFiles
  {
    match Requested(Operation.InspectFiles, transport)
    case Err(e) => Err(e)
    case Ok(h) => if h.InspectFiles? then Ok(h.inspected) else Err(UnexpectedResponse(h))
  }

  /** `search`. */
  function SearchCall(transport: Result<Response, Text>): (r: Result<seq<EntryData>, ClientError>)
    ensures transport.Err? ==> r == Err(ClientError.Search(transport.error))
    ensures r.Ok? <==> transport.Ok? && transport.value.Search? && Succeeded(transport.value)
    ensures r.Ok? ==> transport.value == Response.Search(Payload.Ok(r.value))
    ensures r.Err? && r.error.UnexpectedResponse? <==>
      transport.Ok? && Succeeded(transport.value) && ResponseOperation(transport.value) != Operation.Search
  {
    match Requested(Operation.Search, transport)
    case Err(e) => Err(e)
    case Ok(h) => if h.Search? then Ok(h.found) else Err(UnexpectedResponse(h))
  }

  /**
   * A daemon error is reported under the operation of the response that
   * carried it, even when the request was for another operation.
   */
  lemma ForeignErrorKeepsItsOperation(errors: seq<Text>)
    ensures ListTagsCall(Ok(Response.TagFiles(Payload.Error(errors))))
      == Err(ClientError.TagFiles(FormatMultipleErrors(errors)))
  {
  }
}
