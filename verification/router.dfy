/**
 The server's POST side: the path table of `do_POST`, the checks each handler
 makes on its request body before doing any work, and the two handlers that
 change the shared file context: chat (which may clear it, then asks the model)
 and upload (which stores the file). The work behind the other guards (web
 search, Wikipedia, the conversations directory) and the call to the model are
 parameters or are reported as passed on.
 */
module Router {
  import opened Options
  import opened Text
  import opened Json
  import opened FileContext
  import opened UploadSummary
  import SendTurn

  /** The handlers of `do_POST`, in the order its tests try their paths. */
  datatype Handler =
    | ChatHandler | SearchHandler | UploadHandler | WikipediaHandler
    | SaveHandler | LoadHandler | ListHandler | DeleteHandler

  const Handlers: seq<Handler> := [
    ChatHandler, SearchHandler, UploadHandler, WikipediaHandler,
    SaveHandler, LoadHandler, ListHandler, DeleteHandler
  ]

  function PathOf(h: Handler): string {
    match h
    case ChatHandler => "/chat"
    case SearchHandler => "/search"
    case UploadHandler => "/upload"
    case WikipediaHandler => "/wikipedia"
    case SaveHandler => "/save-conversation"
    case LoadHandler => "/load-conversation"
    case ListHandler => "/list-conversations"
    case DeleteHandler => "/delete-conversation"
  }

  /** `do_POST`: exact comparison of the whole path, first match wins; `None` is the 404. */
  function RouteOf(path: string): (r: Option<Handler>)
    ensures r.Some? ==> PathOf(r.value) == path
  {
    if path == "/chat" then Some(ChatHandler)
    else if path == "/search" then Some(SearchHandler)
    else if path == "/upload" then Some(UploadHandler)
    else if path == "/wikipedia" then Some(WikipediaHandler)
    else if path == "/save-conversation" then Some(SaveHandler)
    else if path == "/load-conversation" then Some(LoadHandler)
    else if path == "/list-conversations" then Some(ListHandler)
    else if path == "/delete-conversation" then Some(DeleteHandler)
    else None
  }

  /** Every handler is reached by its own path, so no test shadows a later one. */
  lemma RouteRoundTrip(h: Handler)
    ensures RouteOf(PathOf(h)) == Some(h)
  {
  }

  /** A path is served exactly when it is one of the eight handler paths. */
  lemma RouteServesExactlyHandlerPaths(path: string)
    ensures RouteOf(path).Some? <==> exists i :: 0 <= i < |Handlers| && path == PathOf(Handlers[i])
  {
    if RouteOf(path).Some? {
      var h := RouteOf(path).value;
      assert h == Handlers[0] || h == Handlers[1] || h == Handlers[2] || h == Handlers[3]
          || h == Handlers[4] || h == Handlers[5] || h == Handlers[6] || h == Handlers[7];
    }
  }

  /* ---------------- the client's side of the table ---------------- */

  const ServerUrl: string := "http://localhost:8000"

  /** The path of each request the chat form sends, written after the server address. */
  function ClientPath(e: SendTurn.Endpoint): string {
    match e
    case UploadEndpoint => "/upload"
    case ChatEndpoint => "/chat"
    case SearchEndpoint => "/search"
    case WikipediaEndpoint => "/wikipedia"
  }

  /** Each request of a send reaches the handler meant for it. */
  lemma ClientEndpointsRouted(e: SendTurn.Endpoint)
    ensures RouteOf(ClientPath(e)) == Some(match e
      case UploadEndpoint => UploadHandler
      case ChatEndpoint => ChatHandler
      case SearchEndpoint => SearchHandler
      case WikipediaEndpoint => WikipediaHandler)
  {
  }

  /** The paths the conversation buttons post to (save, list, load, delete), each served. */
  const ConversationPaths: seq<string> := ["/save-conversation", "/list-conversations", "/load-conversation", "/delete-conversation"]

  lemma ConversationPathsRouted()
    ensures forall i :: 0 <= i < |ConversationPaths| ==> RouteOf(ConversationPaths[i]).Some?
  {
  }

  /* ---------------- requests and replies ---------------- */

  /** A request body: read and parsed into a JSON object, or failing on the way (missing length, bad JSON, not an object). */
  datatype Body = Unparsable(detail: string) | Parsed(fields: Object)

  /** What one handler answers. */
  datatype Reply =
    | Failure(error: string)
    | Answer(response: string)
    | Uploaded(fileName: string, fileType: string, summary: Summary)
      /** The guard let the request through to work this model leaves out, with the argument it hands on. */
    | Passed(handler: Handler, arg: Option<Json>)
      /** An upload whose name or type is not a JSON string. */
    | Unmodelled

  datatype Response = Reply(status: nat, reply: Reply) | NotFound

  /** A response and the file context after it. */
  datatype Served = Served(response: Response, ctx: Context)

  /** The prefix of each handler's catch-all error. */
  function ErrorPrefix(h: Handler): string {
    match h
    case ChatHandler => "Server error: "
    case SearchHandler => "Search error: "
    case UploadHandler => "Upload error: "
    case WikipediaHandler => "Wikipedia search error: "
    case SaveHandler => "Save error: "
    case LoadHandler => "Load error: "
    case ListHandler => "List error: "
    case DeleteHandler => "Delete error: "
  }

  function ServerError(h: Handler, detail: string): Response {
    Reply(500, Failure(ErrorPrefix(h) + detail))
  }

  /* ---------------- the model's reply ---------------- */

  /** One candidate of a successful model reply: text in its first part, no content or parts, or a shape that raises. */
  datatype Candidate = Text(text: string) | NoParts | Broken(detail: string)

  /** How the call to the model ends. */
  datatype ApiResult = Http(status: nat, candidates: seq<Candidate>) | TimedOut | Unreachable | Failed(detail: string)

  /** The question sent: the assembled prompt, or a message that is not text (what is then sent is not modelled). */
  datatype Question = Prompted(text: string) | NonText(message: Json)

  const ErrorMark: string := "\U{274C} "

  /** The text `get_gemini_response` returns: the first candidate's text, or a marked error text. */
  function AnswerText(r: ApiResult): (t: string)
  {
    match r
    case Http(status, cs) =>
      if status != 200 then ErrorMark + "Gemini API error: " + NatToString(status)
      else if |cs| == 0 then ErrorMark + "No response from Gemini API"
      else (match cs[0]
        case Text(text) => text
        case NoParts => ErrorMark + "Invalid response format from Gemini API"
        case Broken(detail) => ErrorMark + "Error: " + detail)
    case TimedOut => ErrorMark + "Request timeout. Please try again."
    case Unreachable => ErrorMark + "Connection error. Please check your internet connection."
    case Failed(detail) => ErrorMark + "Error: " + detail
  }

  predicate Answered(r: ApiResult) {
    r.Http? && r.status == 200 && |r.candidates| > 0 && r.candidates[0].Text?
  }

  /**
   The answer is the model's own text exactly when it sent some; every other
   ending gives a text opening with the error mark.
   */
  lemma AnswerTextMeans(r: ApiResult)
    ensures Answered(r) ==> AnswerText(r) == r.candidates[0].text
    ensures !Answered(r) ==> StartsWith(AnswerText(r), ErrorMark)
  {
    var t := AnswerText(r);
    if !Answered(r) {
      assert t[..|ErrorMark|] == ErrorMark;
    }
  }

  /* ---------------- chat ---------------- */

  const NoMessage: string := "No message provided"

  function QuestionOf(ctx: Context, message: Json): Question {
    if message.JStr? then Prompted(Prompt(ctx, message.s)) else NonText(message)
  }

  /**
   `handle_chat` with the clear request honoured: a truthy `clear_context`
   empties the context whether or not a message came with it; an empty message
   is then refused, and any other is asked with the remaining context.
   */
  function HandleChat(ctx: Context, body: Body, ask: Question -> ApiResult): (s: Served)
    ensures body.Unparsable? ==> s == Served(ServerError(ChatHandler, body.detail), ctx)
    ensures body.Parsed? && Truthy(Get(body.fields, "clear_context", JBool(false))) ==> s.ctx == []
    ensures body.Parsed? && !Truthy(Get(body.fields, "clear_context", JBool(false))) ==> s.ctx == ctx
    ensures body.Parsed? ==> (s.response == Reply(400, Failure(NoMessage)) <==> !Truthy(Get(body.fields, "message", JStr(""))))
  {
    match body
    case Unparsable(detail) => Served(ServerError(ChatHandler, detail), ctx)
    case Parsed(data) =>
      var message := Get(data, "message", JStr(""));
      var kept := if Truthy(Get(data, "clear_context", JBool(false))) then [] else ctx;
      if !Truthy(message) then Served(Reply(400, Failure(NoMessage)), kept)
      else Served(Reply(200, Answer(AnswerText(ask(QuestionOf(kept, message))))), kept)
  }

  /** `handle_chat` as the source orders it: the empty-message refusal comes before the clear. */
  function HandleChatAsWritten(ctx: Context, body: Body, ask: Question -> ApiResult): (s: Served)
    ensures body.Parsed? && !Truthy(Get(body.fields, "message", JStr(""))) ==> s == Served(Reply(400, Failure(NoMessage)), ctx)
  {
    match body
    case Unparsable(detail) => Served(ServerError(ChatHandler, detail), ctx)
    case Parsed(data) =>
      var message := Get(data, "message", JStr(""));
      if !Truthy(message) then Served(Reply(400, Failure(NoMessage)), ctx)
      else
        var kept := if Truthy(Get(data, "clear_context", JBool(false))) then [] else ctx;
        Served(Reply(200, Answer(AnswerText(ask(QuestionOf(kept, message))))), kept)
  }

  /** The two orders differ only for a request that asks to clear without a message. */
  lemma ChatOrdersAgree(ctx: Context, body: Body, ask: Question -> ApiResult)
    requires body.Parsed? ==> Truthy(Get(body.fields, "message", JStr(""))) || !Truthy(Get(body.fields, "clear_context", JBool(false)))
    ensures HandleChat(ctx, body, ask) == HandleChatAsWritten(ctx, body, ask)
  {
  }

  /** A chat with a text message asks the model with the prompt built from the context left after any clear. */
  lemma ChatAsksWithPrompt(ctx: Context, data: Object, m: string, ask: Question -> ApiResult)
    requires Get(data, "message", JStr("")) == JStr(m) && m != ""
    ensures var s := HandleChat(ctx, Parsed(data), ask);
      s.response == Reply(200, Answer(AnswerText(ask(Prompted(Prompt(s.ctx, m))))))
  {
  }

  /* ---------------- clearing the context from the client ---------------- */

  /** The body the client's clear button sends. */
  const ClearBody: Body := Parsed(map["message" := JStr(""), "clear_context" := JBool(true)])

  /** The path the clear button posts to, as the client writes it. */
  const ClearPathAsWritten: string := "/api/chat"

  /** The path it evidently means: the one the chat requests use. */
  const ClearPath: string := "/chat"

  /* ---------------- upload ---------------- */

  const NoFileData: string := "No file data provided"

  /**
   `handle_file_upload`: a missing or empty `fileData` is refused; otherwise the
   file is summarised and stored under its name (last upload of a name wins, in
   its first place). `decode` stands for base64 decoding and the character-set
   fallbacks.
   */
  function HandleUpload(ctx: Context, body: Body, decode: Json -> Payload): (s: Served)
    ensures body.Unparsable? ==> s == Served(ServerError(UploadHandler, body.detail), ctx)
    ensures body.Parsed? ==> (s.response == Reply(400, Failure(NoFileData)) <==> !Truthy(Get(body.fields, "fileData", JStr(""))))
    ensures s.response.Reply? && s.response.status != 200 ==> s.ctx == ctx
    ensures UniqueNames(ctx) ==> UniqueNames(s.ctx)
  {
    match body
    case Unparsable(detail) => Served(ServerError(UploadHandler, detail), ctx)
    case Parsed(data) =>
      var fileData := Get(data, "fileData", JStr(""));
      if !Truthy(fileData) then Served(Reply(400, Failure(NoFileData)), ctx)
      else
        match (GetText(data, "fileName", "unknown"), GetText(data, "fileType", "application/octet-stream"))
        case (Some(name), Some(fileType)) =>
          var payload := decode(fileData);
          var entry := Entry(fileType, RawContent(name, fileType, payload));
          StoreUnique(ctx, name, entry);
          Served(Reply(200, Uploaded(name, fileType, Summarize(name, fileType, payload))), Store(ctx, name, entry))
        case _ => Served(Reply(200, Unmodelled), ctx)
  }

  /**
   A successful upload of a named file makes that name read back the declared
   type and the raw content, leaves every other name as it was, and keeps the
   order of the names.
   */
  lemma UploadStores(ctx: Context, data: Object, decode: Json -> Payload, name: string, fileType: string, other: string)
    requires Truthy(Get(data, "fileData", JStr("")))
    requires GetText(data, "fileName", "unknown") == Some(name)
    requires GetText(data, "fileType", "application/octet-stream") == Some(fileType)
    ensures var s := HandleUpload(ctx, Parsed(data), decode);
      var payload := decode(Get(data, "fileData", JStr("")));
      && s.response == Reply(200, Uploaded(name, fileType, Summarize(name, fileType, payload)))
      && Lookup(s.ctx, name) == Some(Entry(fileType, RawContent(name, fileType, payload)))
      && (other != name ==> Lookup(s.ctx, other) == Lookup(ctx, other))
      && (name in Names(ctx) ==> Names(s.ctx) == Names(ctx))
      && (name !in Names(ctx) ==> Names(s.ctx) == Names(ctx) + [name])
  {
    var entry := Entry(fileType, RawContent(name, fileType, decode(Get(data, "fileData", JStr("")))));
    StoreLookup(ctx, name, entry, other);
    StoreNames(ctx, name, entry);
  }

  /** An upload without a name is stored as `unknown`, so two such uploads share one place. */
  lemma UnnamedUploadsShareAPlace(ctx: Context, data: Object, decode: Json -> Payload)
    requires Truthy(Get(data, "fileData", JStr(""))) && "fileName" !in data
    requires GetText(data, "fileType", "application/octet-stream").Some?
    ensures Lookup(HandleUpload(ctx, Parsed(data), decode).ctx, "unknown").Some?
  {
    var fileType := GetText(data, "fileType", "application/octet-stream").value;
    UploadStores(ctx, data, decode, "unknown", fileType, "unknown");
  }

  /* ---------------- the other guards ---------------- */

  const NoQuery: string := "No search query provided"
  const NoFilename: string := "No filename provided"

  /** The field each guarded handler requires, with the refusal text; `None` for the handlers without a guard. */
  function GuardOf(h: Handler): Option<(string, string)> {
    match h
    case ChatHandler => Some(("message", NoMessage))
    case SearchHandler => Some(("query", NoQuery))
    case WikipediaHandler => Some(("query", NoQuery))
    case UploadHandler => Some(("fileData", NoFileData))
    case LoadHandler => Some(("filename", NoFilename))
    case DeleteHandler => Some(("filename", NoFilename))
    case SaveHandler => None
    case ListHandler => None
  }

  /** A handler whose work lies outside the model: search, Wikipedia, save, load, delete, list. */
  function PassOn(h: Handler, body: Body): (r: Response)
    requires h != ChatHandler && h != UploadHandler
    ensures h == ListHandler ==> r == Reply(200, Passed(ListHandler, None))
    ensures h != ListHandler && body.Unparsable? ==> r == ServerError(h, body.detail)
  {
    if h == ListHandler then Reply(200, Passed(ListHandler, None))
    else if body.Unparsable? then ServerError(h, body.detail)
    else if h == SaveHandler then
      Reply(200, Passed(SaveHandler, if "name" in body.fields then Some(body.fields["name"]) else None))
    else
      var (field, refusal) := GuardOf(h).value;
      var v := Get(body.fields, field, JStr(""));
      if !Truthy(v) then Reply(400, Failure(refusal)) else Reply(200, Passed(h, Some(v)))
  }

  /* ---------------- one request ---------------- */

  /** What the server does with one POST, and the shared file context after it. */
  function Serve(ctx: Context, path: string, body: Body, ask: Question -> ApiResult, decode: Json -> Payload): (s: Served)
    ensures RouteOf(path).None? ==> s == Served(NotFound, ctx)
    ensures RouteOf(path) != Some(ChatHandler) && RouteOf(path) != Some(UploadHandler) ==> s.ctx == ctx
    ensures RouteOf(path) != Some(ChatHandler) ==> |s.ctx| >= |ctx|
    ensures UniqueNames(ctx) ==> UniqueNames(s.ctx)
  {
    match RouteOf(path)
    case None => Served(NotFound, ctx)
    case Some(ChatHandler) => HandleChatAsWritten(ctx, body, ask)
    case Some(UploadHandler) => HandleUpload(ctx, body, decode)
    case Some(h) => Served(PassOn(h, body), ctx)
  }

  /** The server with the chat handler corrected to honour a clear request; every other path is served as written. */
  function ServeCorrected(ctx: Context, path: string, body: Body, ask: Question -> ApiResult, decode: Json -> Payload): (s: Served)
    ensures RouteOf(path) != Some(ChatHandler) ==> s == Serve(ctx, path, body, ask, decode)
    ensures RouteOf(path) == Some(ChatHandler) && body.Parsed? && Truthy(Get(body.fields, "clear_context", JBool(false)))
      ==> s.ctx == []
    ensures UniqueNames(ctx) ==> UniqueNames(s.ctx)
  {
    if RouteOf(path) == Some(ChatHandler) then HandleChat(ctx, body, ask) else Serve(ctx, path, body, ask, decode)
  }

  /**
   Every guarded handler refuses with 400 exactly when its field is missing or
   falsy, and a body that cannot be read gets the handler's own error prefix.
   */
  lemma GuardsRefuseFalsyFields(ctx: Context, h: Handler, data: Object, ask: Question -> ApiResult, decode: Json -> Payload)
    requires GuardOf(h).Some?
    ensures var (field, refusal) := GuardOf(h).value;
      var r := Serve(ctx, PathOf(h), Parsed(data), ask, decode).response;
      r == Reply(400, Failure(refusal)) <==> !Truthy(Get(data, field, JStr("")))
  {
    RouteRoundTrip(h);
    var (field, refusal) := GuardOf(h).value;
    if h != ChatHandler && h != UploadHandler {
      var r := PassOn(h, Parsed(data));
      assert r == Reply(400, Failure(refusal)) <==> !Truthy(Get(data, field, JStr("")));
    }
  }

  lemma ErrorsCarryPrefix(ctx: Context, h: Handler, detail: string, ask: Question -> ApiResult, decode: Json -> Payload)
    requires h != ListHandler
    ensures var r := Serve(ctx, PathOf(h), Unparsable(detail), ask, decode).response;
      r.Reply? && r.status == 500 && r.reply.Failure? && StartsWith(r.reply.error, ErrorPrefix(h))
  {
    RouteRoundTrip(h);
    var e := ErrorPrefix(h) + detail;
    assert e[..|ErrorPrefix(h)|] == ErrorPrefix(h);
  }

  /** Listing reads no body at all: whatever was sent, it is passed on. */
  lemma ListIgnoresBody(ctx: Context, body: Body, ask: Question -> ApiResult, decode: Json -> Payload)
    ensures Serve(ctx, "/list-conversations", body, ask, decode) == Served(Reply(200, Passed(ListHandler, None)), ctx)
  {
  }

  /* ---------------- the clear button, as written and as meant ---------------- */

  /** As written, the clear request goes to a path the server does not serve: a 404, and the context stays. */
  lemma ClearAsWrittenIsNotFound(ctx: Context, ask: Question -> ApiResult, decode: Json -> Payload)
    ensures Serve(ctx, ClearPathAsWritten, ClearBody, ask, decode) == Served(NotFound, ctx)
  {
  }

  /** Even at the chat path, the handler as written refuses the empty message before looking at the clear flag. */
  lemma ClearRefusedAsWritten(ctx: Context, ask: Question -> ApiResult)
    ensures HandleChatAsWritten(ctx, ClearBody, ask) == Served(Reply(400, Failure(NoMessage)), ctx)
  {
    assert Get(ClearBody.fields, "message", JStr("")) == JStr("");
  }

  /** With the path and the handler corrected, the clear button empties the context, so the next prompt is the bare question. */
  lemma ClearEmptiesContext(ctx: Context, ask: Question -> ApiResult, decode: Json -> Payload, next: string)
    ensures var s := ServeCorrected(ctx, ClearPath, ClearBody, ask, decode);
      s.ctx == [] && Prompt(s.ctx, next) == next
  {
    assert Get(ClearBody.fields, "clear_context", JBool(false)) == JBool(true);
  }
}
