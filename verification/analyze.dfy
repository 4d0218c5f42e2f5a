/** The serverless entry point `api/analyze.js`: a POST with a multipart upload
    is routed by file kind to a text extractor, checked for a minimum amount of
    text, clipped, wrapped in a fixed prompt and sent to Kimi; the model's
    answer is returned as `analysis`. Everything is a pure function of the
    request, the document libraries, the environment and the network. */
module Analyze {
  import opened JsValues
  import opened JsStrings
  import opened Kimi

  // ---------------------------------------------------------------------------
  // Requests and replies

  /** A file as multer's memory storage hands it over; `originalname` and
      `mimetype` are read through `|| ""`, so they may be undefined. */
  datatype UploadedFile = UploadedFile(
    originalName: Option<string>,
    mimeType: Option<string>,
    size: nat,
    buffer: Bytes)

  /** `files` is undefined when the body is not multipart. */
  datatype Request = Request(verb: string, files: Option<seq<UploadedFile>>)

  /** The response bodies the handler sends: the plain text of the 405, the
      JSON `{success: false, error}` and the JSON `{success: true, analysis}`. */
  datatype Body = PlainBody(text: string) | Failure(error: string) | Success(analysis: string)

  datatype Reply = Reply(status: nat, body: Body)

  /** One handled request: the reply, and the request sent to Kimi, if any. */
  datatype Exchange = Exchange(reply: Reply, sent: Option<ChatRequest>)

  /** The result of `callKimi`, with the request it sent, if any. */
  datatype Call = Call(result: Completion<string>, sent: Option<ChatRequest>)

  // ---------------------------------------------------------------------------
  // Constants

  /** multer's `limits.fileSize`: 25 MB. */
  const MaxFileSize: nat := 25 * 1024 * 1024

  /** The message multer rejects an over-limit file with. */
  const FileTooLargeMessage: string := "File too large"

  /** Extracted text shorter than this is refused with 400. */
  const MinTextLength: nat := 20

  /** At most this many characters of extracted text reach the prompt. */
  const MaxPromptText: nat := 12000

  const NoFileMessage: string :=
    "没有收到文件。请确认前端使用 multipart/form-data 上传，并且确实选择了文件。"

  const TooLittleTextMessage: string :=
    "提取到的文本太少，可能是扫描版 PDF 或图片。请换可复制文字的 PDF/DOCX。"

  /** The tag both placeholder notices open with. */
  const NoticeTag: string := "【提示】"

  const OcrNotice: string :=
    NoticeTag + "你上传的是图片，但当前版本尚未接入 OCR，无法从图片中提取文字。请上传 PDF 或 DOCX 版本研报。"

  const UnsupportedNoticePrefix: string := NoticeTag + "暂不支持的文件类型："

  const MissingKeyMessage: string :=
    "缺少 API Key：请在 Vercel 项目 Settings → Environment Variables 里设置 MOONSHOT_API_KEY（或 KIMI_API_KEY）"

  const SystemPrompt: string := "你是专业研报解读助手，输出要清晰、结构化、面向普通投资者。"

  const HttpFailurePrefix: string := "Kimi API 调用失败：HTTP "

  /** The environment variables the API key is read from, most preferred first. */
  const KeyVariables: seq<string> := ["MOONSHOT_API_KEY", "KIMI_API_KEY", "MOONSHOT_KEY"]

  /** The prompt template up to the "【研报原文】" heading: all of the prompt
      when the report text is blank. */
  const PromptLead: string :=
    "你是“研报解读助手”。" + "请把下面券商研报内容，用普通散户能听懂的方式解释出来。\n"
    + "要求：\n"
    + "1) 先给 8-12 句“结论速读”\n"
    + "2) 再按“研究逻辑/核心假设/关键数据/风险点/适合什么人看”分段说明\n"
    + "3) 避免堆砌术语，必要术语要用一句话解释\n"
    + "4) 不要编造不存在的数字或结论；原文没有就写“原文未提供”\n"
    + "\n"
    + "【研报原文】"

  /** The template up to and including the line break after the heading; the
      report text follows it. */
  const PromptHead: string := PromptLead + "\n"

  // ---------------------------------------------------------------------------
  // Upload parsing

  /** multer's `upload.any()`: every file part is accepted whatever its field
      name; a file over the size limit rejects the whole upload. A body that
      is not multipart leaves `req.files` undefined, read as `[]`. */
  function AnyUpload(files: Option<seq<UploadedFile>>): (r: Completion<seq<UploadedFile>>)
    ensures r.Abrupt? <==> files.Some? && exists i :: 0 <= i < |files.value| && files.value[i].size > MaxFileSize
    ensures r.Normal? ==> r.value == files.GetOr([])
    ensures r.Abrupt? ==> r.message == FileTooLargeMessage
  {
    var fs := files.GetOr([]);
    if exists i :: 0 <= i < |fs| && fs[i].size > MaxFileSize then Abrupt(FileTooLargeMessage)
    else Normal(fs)
  }

  // ---------------------------------------------------------------------------
  // File classification

  datatype FileKind = PdfFile | WordFile | TextFile | ImageFile | UnsupportedFile

  /** The position of each kind in the order the extractor tests them. */
  function Rank(k: FileKind): nat {
    match k
    case PdfFile => 0
    case WordFile => 1
    case TextFile => 2
    case ImageFile => 3
    case UnsupportedFile => 4
  }

  /** Whether a lower-cased file name and MIME type carry the signal of kind
      `k`; every file carries the "unsupported" signal. */
  predicate Signals(k: FileKind, name: string, mime: string) {
    match k
    case PdfFile => Contains(mime, "pdf") || EndsWith(name, ".pdf")
    case WordFile =>
      || Contains(mime, "word")
      || Contains(mime, "officedocument.wordprocessingml.document")
      || EndsWith(name, ".docx")
    case TextFile =>
      || Contains(mime, "text/plain") || Contains(mime, "text/markdown")
      || EndsWith(name, ".txt") || EndsWith(name, ".md")
    case ImageFile =>
      || StartsWith(mime, "image/")
      || EndsWith(name, ".png") || EndsWith(name, ".jpg")
      || EndsWith(name, ".jpeg") || EndsWith(name, ".webp")
    case UnsupportedFile => true
  }

  /** The branch `extractTextFromUploadedFile` takes for a lower-cased name
      and MIME type: the first kind, in test order, whose signal is present. */
  function KindOf(name: string, mime: string): (k: FileKind)
    ensures Signals(k, name, mime)
    ensures forall j: FileKind :: Rank(j) < Rank(k) ==> !Signals(j, name, mime)
  {
    if Signals(PdfFile, name, mime) then PdfFile
    else if Signals(WordFile, name, mime) then WordFile
    else if Signals(TextFile, name, mime) then TextFile
    else if Signals(ImageFile, name, mime) then ImageFile
    else UnsupportedFile
  }

  /** `(file.originalname || "").toLowerCase()` */
  function LowerName(file: UploadedFile): string {
    ToLower(OrElse([file.originalName], ""))
  }

  /** `(file.mimetype || "").toLowerCase()` */
  function LowerMime(file: UploadedFile): string {
    ToLower(OrElse([file.mimeType], ""))
  }

  function Classify(file: UploadedFile): FileKind {
    KindOf(LowerName(file), LowerMime(file))
  }

  // ---------------------------------------------------------------------------
  // Text extraction

  /** Awaiting a library call: its text field, or its rejection as a throw. */
  function Await(o: LibOutcome): (r: Completion<Option<string>>)
    ensures r.Normal? <==> o.Extracted?
  {
    match o
    case Extracted(t) => Normal(t)
    case LibThrew(m) => Abrupt(m)
  }

  /** The notice returned for a file of no known kind: it names the original
      (not lower-cased) MIME type, else the original name, else "unknown". */
  function UnsupportedNotice(file: UploadedFile): string {
    UnsupportedNoticePrefix + OrElse([file.mimeType, file.originalName], "unknown")
  }

  /** The type the notice names: the MIME type when it is set and non-empty,
      else the name when that is, else "unknown". */
  lemma UnsupportedNoticeNamesType(file: UploadedFile)
    ensures Truthy(file.mimeType) ==>
              UnsupportedNotice(file) == UnsupportedNoticePrefix + file.mimeType.value
    ensures !Truthy(file.mimeType) && Truthy(file.originalName) ==>
              UnsupportedNotice(file) == UnsupportedNoticePrefix + file.originalName.value
    ensures !Truthy(file.mimeType) && !Truthy(file.originalName) ==>
              UnsupportedNotice(file) == UnsupportedNoticePrefix + "unknown"
  {
    var candidates := [file.mimeType, file.originalName];
    assert candidates[0] == file.mimeType && candidates[1] == file.originalName;
  }

  /** `extractTextFromUploadedFile`: the text of a PDF, Word or text file
      (trimmed), a fixed notice for an image, or a notice naming the type of
      anything else; a throw only when a document library throws. */
  function ExtractText(file: UploadedFile, libs: Libraries): (r: Completion<string>)
    ensures Classify(file) == PdfFile ==>
              r == (var t :- Await(libs.pdfParse(file.buffer)); Normal(Trim(OrElse([t], ""))))
    ensures Classify(file) == WordFile ==>
              r == (var t :- Await(libs.extractRawText(file.buffer)); Normal(Trim(OrElse([t], ""))))
    ensures Classify(file) == TextFile ==> r == Normal(Trim(libs.decodeUtf8(file.buffer)))
    ensures Classify(file) == ImageFile ==> r == Normal(OcrNotice)
    ensures Classify(file) == UnsupportedFile ==> r == Normal(UnsupportedNotice(file))
    ensures r.Normal? && Rank(Classify(file)) <= Rank(TextFile) ==> IsTrimmed(r.value)
    ensures r.Normal? && |r.value| > 0 ==> !IsWhitespace(r.value[0])
    ensures r.Abrupt? ==> Classify(file) in {PdfFile, WordFile}
  {
    match Classify(file)
    case PdfFile =>
      var t :- Await(libs.pdfParse(file.buffer));
      Normal(Trim(OrElse([t], "")))
    case WordFile =>
      var t :- Await(libs.extractRawText(file.buffer));
      Normal(Trim(OrElse([t], "")))
    case TextFile => Normal(Trim(libs.decodeUtf8(file.buffer)))
    case ImageFile =>
      assert OcrNotice[0] == NoticeTag[0];
      Normal(OcrNotice)
    case UnsupportedFile => Normal(UnsupportedNotice(file))
  }

  // ---------------------------------------------------------------------------
  // Prompt

  /** `buildPrompt`: the template literal, which opens and closes with a line
      break around the report text, trimmed as a whole. */
  function BuildPrompt(report: string): (r: string)
    ensures IsTrimmed(r)
  {
    Trim("\n" + PromptLead + "\n" + report + "\n")
  }

  /** The three facts about the template that trimming depends on. */
  lemma PromptHeadShape()
    ensures |PromptHead| >= 2 && !IsWhitespace(PromptHead[0])
    ensures !IsWhitespace(PromptLead[|PromptLead| - 1])
  {
    assert PromptLead[0] == '你';
    assert PromptLead[|PromptLead| - 1] == '】';
  }

  /** What the prompt holds: it starts with the template; the report text
      follows the "【研报原文】" line with its trailing whitespace dropped, and a
      blank report leaves the template alone. */
  lemma BuildPromptShape(report: string)
    ensures var r := BuildPrompt(report);
            && StartsWith(r, PromptLead)
            && (!AllWhitespace(report) ==> r == PromptHead + TrimEnd(report))
            && (AllWhitespace(report) ==> r == PromptLead)
  {
    PromptHeadShape();
    TrimIsBothEnds("\n" + PromptLead + "\n" + report + "\n");
    TrimmedTemplate(PromptLead, report);
  }

  /** Trimming "\n" + lead + "\n" + report + "\n", for a lead that neither
      starts nor ends with whitespace. */
  lemma TrimmedTemplate(lead: string, report: string)
    requires |lead| > 0 && !IsWhitespace(lead[0]) && !IsWhitespace(lead[|lead| - 1])
    ensures var r := TrimEnd(TrimStart("\n" + lead + "\n" + report + "\n"));
            && (!AllWhitespace(report) ==> r == lead + "\n" + TrimEnd(report))
            && (AllWhitespace(report) ==> r == lead)
            && StartsWith(r, lead)
  {
    TemplateTrimStart(lead, report);
    if AllWhitespace(report) {
      BlankTemplateTrimEnd(lead, report);
      assert lead[..|lead|] == lead;
    } else {
      ReportTemplateTrimEnd(lead, report);
      StartsWithJoin(lead, "\n" + TrimEnd(report));
      assert lead + "\n" + TrimEnd(report) == lead + ("\n" + TrimEnd(report));
    }
  }

  lemma TemplateTrimStart(lead: string, report: string)
    requires |lead| > 0 && !IsWhitespace(lead[0])
    ensures TrimStart("\n" + lead + "\n" + report + "\n") == lead + "\n" + report + "\n"
  {
    var body := lead + "\n" + report + "\n";
    assert "\n" + lead + "\n" + report + "\n" == "\n" + body;
    TrimStartSkipsWhitespace("\n", body);
    assert body[0] == lead[0];
  }

  /** With a report that has content, `trimEnd` of the template keeps the
      lead and the line break and trims only the report. */
  lemma ReportTemplateTrimEnd(lead: string, report: string)
    requires !AllWhitespace(report)
    ensures TrimEnd(lead + "\n" + report + "\n") == lead + "\n" + TrimEnd(report)
  {
    var head := lead + "\n";
    var tail := report + "\n";
    assert lead + "\n" + report + "\n" == head + tail;
    NotAllWhitespaceJoin(report, "\n");
    TrimEndKeepsHead(head, tail);
    TrimEndSkipsWhitespace(report, "\n");
  }

  /** With a blank report, `trimEnd` of the template is the lead alone. */
  lemma BlankTemplateTrimEnd(lead: string, report: string)
    requires |lead| > 0 && !IsWhitespace(lead[|lead| - 1])
    requires AllWhitespace(report)
    ensures TrimEnd(lead + "\n" + report + "\n") == lead
  {
    var tail := "\n" + report + "\n";
    assert lead + "\n" + report + "\n" == lead + tail;
    AllWhitespaceJoin("\n", report);
    AllWhitespaceJoin("\n" + report, "\n");
    TrimEndSkipsWhitespace(lead, tail);
    TrimEndOfTrimmedEnd(lead);
  }

  /** The report text a prompt carries: what follows the template, if the
      prompt starts with it. */
  function PromptReport(prompt: string): (r: Option<string>)
    ensures r.Some? <==> StartsWith(prompt, PromptHead)
    ensures r.Some? ==> prompt == PromptHead + r.value
  {
    if StartsWith(prompt, PromptHead) then Some(prompt[|PromptHead|..]) else None
  }

  /** Reading the report back out of a built prompt gives the report text
      without its trailing whitespace. */
  lemma PromptRoundTrip(report: string)
    requires !AllWhitespace(report)
    ensures PromptReport(BuildPrompt(report)) == Some(TrimEnd(report))
  {
    BuildPromptShape(report);
    var p := BuildPrompt(report);
    assert p[..|PromptHead|] == PromptHead;
    assert p[|PromptHead|..] == TrimEnd(report);
  }

  // ---------------------------------------------------------------------------
  // The Kimi call

  /** `MOONSHOT_API_KEY || KIMI_API_KEY || MOONSHOT_KEY`, undefined when all
      three are unset or empty. */
  function ResolveApiKey(env: Env): (r: Option<string>)
    ensures r.None? <==> forall i :: 0 <= i < |KeyVariables| ==> !Truthy(EnvGet(env, KeyVariables[i]))
    ensures Truthy(EnvGet(env, "MOONSHOT_API_KEY")) ==> r == Some(env["MOONSHOT_API_KEY"])
    ensures !Truthy(EnvGet(env, "MOONSHOT_API_KEY")) && Truthy(EnvGet(env, "KIMI_API_KEY")) ==>
              r == Some(env["KIMI_API_KEY"])
    ensures (!Truthy(EnvGet(env, "MOONSHOT_API_KEY")) && !Truthy(EnvGet(env, "KIMI_API_KEY"))
             && Truthy(EnvGet(env, "MOONSHOT_KEY"))) ==> r == Some(env["MOONSHOT_KEY"])
  {
    var candidates := [EnvGet(env, KeyVariables[0]), EnvGet(env, KeyVariables[1]), EnvGet(env, KeyVariables[2])];
    var r := FirstTruthy(candidates);
    assert forall i :: 0 <= i < |KeyVariables| ==> candidates[i] == EnvGet(env, KeyVariables[i]);
    r
  }

  /** The request `callKimi` sends for a prompt once a key is known. */
  function KimiRequest(prompt: string, key: string, env: Env): ChatRequest {
    ChatRequest(
      ChatCompletionsUrl, key, OrElse([EnvGet(env, "KIMI_MODEL")], DefaultModel),
      [Message("system", SystemPrompt), Message("user", prompt)],
      Temperature, None, None)
  }

  /** The message `callKimi` throws for a non-2xx response. */
  function HttpFailureMessage(status: nat, body: Option<string>): string {
    HttpFailurePrefix + Decimal(status) + " " + body.GetOr("")
  }

  /** `callKimi`: no key means a throw before any request; otherwise one
      request carrying the prompt as the user message, whose answer is the
      returned content ("" when absent), and whose failure is a throw. */
  function CallKimi(prompt: string, env: Env, send: Transport): (c: Call)
    ensures c.sent.None? <==> ResolveApiKey(env).None?
    ensures c.sent.None? ==> c.result == Abrupt(MissingKeyMessage)
    ensures c.sent.Some? ==>
              && c.sent.value.apiKey == ResolveApiKey(env).value
              && c.sent.value.url == ChatCompletionsUrl
              && |c.sent.value.messages| == 2
              && c.sent.value.messages[1] == Message("user", prompt)
    ensures c.sent.Some? ==>
              match send(c.sent.value)
              case Answered(content) => c.result == Normal(content.GetOr(""))
              case HttpError(status, body) => c.result == Abrupt(HttpFailureMessage(status, body))
              case TransportFailure(m) => c.result == Abrupt(m)
  {
    match ResolveApiKey(env)
    case None => Call(Abrupt(MissingKeyMessage), None)
    case Some(key) =>
      var request := KimiRequest(prompt, key, env);
      var result :=
        match send(request)
        case Answered(content) => Normal(OrElse([content], ""))
        case HttpError(status, body) => Abrupt(HttpFailureMessage(status, body))
        case TransportFailure(m) => Abrupt(m);
      Call(result, Some(request))
  }

  /** The status line of an upstream failure carries the status code: the
      digits after the fixed prefix read back as the status. */
  lemma HttpFailureNamesStatus(status: nat, body: Option<string>)
    ensures var m := HttpFailureMessage(status, body);
            var d := Decimal(status);
            && StartsWith(m, HttpFailurePrefix)
            && m[|HttpFailurePrefix|..|HttpFailurePrefix| + |d|] == d
            && DecimalValue(d) == status
  {
    DecimalRoundTrip(status);
    var m := HttpFailureMessage(status, body);
    var d := Decimal(status);
    assert m == HttpFailurePrefix + (d + " " + body.GetOr(""));
  }

  // ---------------------------------------------------------------------------
  // The handler

  /** `err?.message || "Server error"` */
  function ErrorText(message: string): (r: string)
    ensures r != ""
    ensures message != "" ==> r == message
    ensures message == "" ==> r == "Server error"
  {
    OrElse([Some(message)], "Server error")
  }

  function Fail(status: nat, error: string, sent: Option<ChatRequest>): Exchange {
    Exchange(Reply(status, Failure(error)), sent)
  }

  /** `handler` as written. */
  function Handle(req: Request, libs: Libraries, env: Env, send: Transport): (x: Exchange)
    ensures req.verb != "POST" ==> x == Exchange(Reply(405, PlainBody("Method Not Allowed")), None)
    ensures x.reply.body.Success? <==> x.reply.status == 200
    ensures x.reply.body.Failure? <==> x.reply.status in {400, 500}
    ensures x.reply.status == 400 ==> x.sent.None?
    ensures x.reply.status == 200 ==> x.sent.Some?
    ensures x.reply.status == 200 ==>
              && send(x.sent.value).Answered?
              && x.reply.body == Success(send(x.sent.value).content.GetOr(""))
  {
    if req.verb != "POST" then
      Exchange(Reply(405, PlainBody("Method Not Allowed")), None)
    else
      match AnyUpload(req.files)
      case Abrupt(m) => Fail(500, ErrorText(m), None)
      case Normal(files) =>
        if |files| == 0 then Fail(400, NoFileMessage, None)
        else
          match ExtractText(files[0], libs)
          case Abrupt(m) => Fail(500, ErrorText(m), None)
          case Normal(text) => Respond(text, env, send)
  }

  /** The rest of `handler` once the text is extracted: the length guard, the
      12000-character clip, the prompt and the Kimi call. */
  function Respond(text: string, env: Env, send: Transport): (x: Exchange)
    ensures x.reply.body.Success? <==> x.reply.status == 200
    ensures x.reply.body.Failure? <==> x.reply.status in {400, 500}
    ensures x.reply.status == 400 <==> |text| < MinTextLength
    ensures x.reply.status == 400 ==> x == Fail(400, TooLittleTextMessage, None)
    ensures x.sent.Some? ==> x.sent == CallKimi(BuildPrompt(Prefix(text, MaxPromptText)), env, send).sent
    ensures |text| >= MinTextLength ==> (x.sent.None? <==> ResolveApiKey(env).None?)
    ensures |text| >= MinTextLength ==>
              var c := CallKimi(BuildPrompt(Prefix(text, MaxPromptText)), env, send);
              && (c.result.Normal? ==> x.reply == Reply(200, Success(c.result.value)))
              && (c.result.Abrupt? ==> x.reply == Reply(500, Failure(ErrorText(c.result.message))))
    ensures x.reply.status == 200 ==>
              && x.sent.Some? && send(x.sent.value).Answered?
              && x.reply.body == Success(send(x.sent.value).content.GetOr(""))
  {
    if |text| < MinTextLength then Fail(400, TooLittleTextMessage, None)
    else ReplyTo(CallKimi(BuildPrompt(Prefix(text, MaxPromptText)), env, send))
  }

  /** The handler's answer to a settled `callKimi`: the analysis with 200,
      or the thrown message with 500. */
  function ReplyTo(call: Call): (x: Exchange)
    ensures x.sent == call.sent
    ensures call.result.Normal? ==> x.reply == Reply(200, Success(call.result.value))
    ensures call.result.Abrupt? ==> x.reply == Reply(500, Failure(ErrorText(call.result.message)))
  {
    match call.result
    case Abrupt(m) => Fail(500, ErrorText(m), call.sent)
    case Normal(analysis) => Exchange(Reply(200, Success(analysis)), call.sent)
  }

  /** A POST whose upload parsed, carried a file, and whose first file was
      extracted to `text`. */
  predicate ExtractedAs(req: Request, libs: Libraries, text: string) {
    && req.verb == "POST"
    && AnyUpload(req.files).Normal?
    && |AnyUpload(req.files).value| > 0
    && ExtractText(AnyUpload(req.files).value[0], libs) == Normal(text)
  }

  /** Once the first file is extracted, the handler is `Respond` on its text. */
  lemma HandleAfterExtraction(req: Request, libs: Libraries, env: Env, send: Transport, text: string)
    requires ExtractedAs(req, libs, text)
    ensures Handle(req, libs, env, send) == Respond(text, env, send)
  {
  }

  /** The length guard: the handler answers 400 without calling Kimi exactly
      when the extracted text is empty or shorter than 20 characters. */
  lemma HandleRefusesShortText(req: Request, libs: Libraries, env: Env, send: Transport, text: string)
    requires ExtractedAs(req, libs, text)
    ensures var x := Handle(req, libs, env, send);
            (x == Fail(400, TooLittleTextMessage, None)) <==> |text| < MinTextLength
    ensures text == "" ==> Handle(req, libs, env, send).reply.status == 400
  {
    HandleAfterExtraction(req, libs, env, send, text);
  }

  /** What reaches Kimi: the prompt built from the first 12000 characters of
      the extracted text, sent with the resolved key; without a key, a 500
      naming the missing key and no request. */
  lemma HandleSendsClippedText(req: Request, libs: Libraries, env: Env, send: Transport, text: string)
    requires ExtractedAs(req, libs, text)
    requires |text| >= MinTextLength
    ensures var x := Handle(req, libs, env, send);
            && (x.sent.None? <==> ResolveApiKey(env).None?)
            && (x.sent.None? ==> x == Fail(500, MissingKeyMessage, None))
            && (x.sent.Some? ==>
                  && x.sent.value.apiKey == ResolveApiKey(env).value
                  && x.sent.value.messages[1].content == BuildPrompt(Prefix(text, MaxPromptText)))
  {
    HandleAfterExtraction(req, libs, env, send, text);
  }

  /** The clip the prompt is built from: a prefix of the extracted text of
      length min(|text|, 12000), which the prompt carries after the template
      (only its trailing whitespace dropped) as long as the text does not
      open with whitespace, as no extracted text does. */
  lemma ClippedTextInPrompt(text: string)
    requires |text| >= MinTextLength && !IsWhitespace(text[0])
    ensures var clipped := Prefix(text, MaxPromptText);
            && clipped <= text
            && |clipped| == (if |text| < MaxPromptText then |text| else MaxPromptText)
            && BuildPrompt(clipped) == PromptHead + TrimEnd(clipped)
            && PromptReport(BuildPrompt(clipped)) == Some(TrimEnd(clipped))
  {
    var clipped := Prefix(text, MaxPromptText);
    assert clipped[0] == text[0];
    assert !AllWhitespace(clipped);
    PromptRoundTrip(clipped);
  }

  /** A throw before the guard — an over-size upload or a failing document
      library — becomes a 500 with `success: false` and the error's
      message, and no request is sent. */
  lemma HandleMapsThrowsTo500(req: Request, libs: Libraries, env: Env, send: Transport)
    requires req.verb == "POST"
    ensures AnyUpload(req.files).Abrupt? ==>
              Handle(req, libs, env, send) == Fail(500, FileTooLargeMessage, None)
    ensures AnyUpload(req.files).Normal? && |AnyUpload(req.files).value| > 0 ==>
              var m := ExtractText(AnyUpload(req.files).value[0], libs);
              m.Abrupt? ==> Handle(req, libs, env, send) == Fail(500, ErrorText(m.message), None)
    ensures Handle(req, libs, env, send).reply.status == 500 ==>
              Handle(req, libs, env, send).reply.body.error != ""
  {
  }

  /** A `callKimi` throw — no key, a non-2xx status, a transport failure —
      after the guard is a 500 with the thrown message; the request, if one
      went out, is the one `callKimi` sent. */
  lemma HandleMapsKimiThrowsTo500(req: Request, libs: Libraries, env: Env, send: Transport, text: string)
    requires ExtractedAs(req, libs, text)
    requires |text| >= MinTextLength
    ensures var c := CallKimi(BuildPrompt(Prefix(text, MaxPromptText)), env, send);
            c.result.Abrupt? ==> Handle(req, libs, env, send) == Fail(500, ErrorText(c.result.message), c.sent)
    ensures var c := CallKimi(BuildPrompt(Prefix(text, MaxPromptText)), env, send);
            && (ResolveApiKey(env).None? ==> Handle(req, libs, env, send) == Fail(500, MissingKeyMessage, None))
            && (c.sent.Some? && send(c.sent.value).HttpError? ==>
                  var e := send(c.sent.value);
                  Handle(req, libs, env, send) == Fail(500, HttpFailureMessage(e.status, e.body), c.sent))
  {
    HandleAfterExtraction(req, libs, env, send, text);
    var c := CallKimi(BuildPrompt(Prefix(text, MaxPromptText)), env, send);
    if c.sent.Some? && send(c.sent.value).HttpError? {
      HttpFailureIsNonEmpty(send(c.sent.value).status, send(c.sent.value).body);
    }
  }

  /** An upstream failure message is never empty, so `|| "Server error"`
      leaves it as it is. */
  lemma HttpFailureIsNonEmpty(status: nat, body: Option<string>)
    ensures HttpFailureMessage(status, body) != ""
    ensures ErrorText(HttpFailureMessage(status, body)) == HttpFailureMessage(status, body)
  {
    HttpFailureNamesStatus(status, body);
  }

  /** A 2xx answer is passed on: the 200 carries Kimi's content, or "" when
      the response had none. */
  lemma HandleReturnsKimiAnswer(req: Request, libs: Libraries, env: Env, send: Transport, text: string)
    requires ExtractedAs(req, libs, text)
    requires |text| >= MinTextLength
    ensures var c := CallKimi(BuildPrompt(Prefix(text, MaxPromptText)), env, send);
            c.sent.Some? && send(c.sent.value).Answered? ==>
              Handle(req, libs, env, send)
              == Exchange(Reply(200, Success(send(c.sent.value).content.GetOr(""))), c.sent)
  {
    HandleAfterExtraction(req, libs, env, send, text);
  }

  /** Only the first uploaded file matters once the upload is accepted. */
  lemma HandleUsesFirstFileOnly(req: Request, libs: Libraries, env: Env, send: Transport)
    requires AnyUpload(req.files).Normal? && |AnyUpload(req.files).value| > 0
    ensures var first := Request(req.verb, Some([req.files.value[0]]));
            Handle(req, libs, env, send) == Handle(first, libs, env, send)
  {
    var first := Request(req.verb, Some([req.files.value[0]]));
    assert AnyUpload(first.files) == Normal([req.files.value[0]]);
  }

  /** Without files — no multipart body, or one without a file part — a POST
      gets 400 and Kimi is not called. */
  lemma HandleRequiresAFile(req: Request, libs: Libraries, env: Env, send: Transport)
    requires req.verb == "POST"
    requires req.files.None? || req.files == Some([])
    ensures Handle(req, libs, env, send) == Fail(400, NoFileMessage, None)
  {
  }

  // ---------------------------------------------------------------------------
  // Classification properties

  /** Classification never fails: a missing name or MIME type is read as "". */
  lemma ClassifyMissingAsEmpty(file: UploadedFile)
    ensures Classify(file) == Classify(UploadedFile(Some(OrElse([file.originalName], "")),
                                                    Some(OrElse([file.mimeType], "")),
                                                    file.size, file.buffer))
  {
  }

  /** Classification ignores case: files whose names and MIME types agree once
      lower-cased are routed alike. */
  lemma ClassifyIgnoresCase(a: UploadedFile, b: UploadedFile)
    requires ToLower(OrElse([a.originalName], "")) == ToLower(OrElse([b.originalName], ""))
    requires ToLower(OrElse([a.mimeType], "")) == ToLower(OrElse([b.mimeType], ""))
    ensures Classify(a) == Classify(b)
  {
  }

  /** A name ending ".pdf" or ".PDF" routes to the PDF extractor whatever the
      MIME type says, image or text included. */
  lemma PdfNameWins(file: UploadedFile)
    requires EndsWith(OrElse([file.originalName], ""), ".pdf")
          || EndsWith(OrElse([file.originalName], ""), ".PDF")
    ensures Classify(file) == PdfFile
  {
    var name := OrElse([file.originalName], "");
    if EndsWith(name, ".PDF") {
      ToLowerKeepsSuffix(name, ".PDF");
      LowerOfPdfSuffix(".PDF");
    } else {
      ToLowerKeepsSuffix(name, ".pdf");
      LowerOfPdfSuffix(".pdf");
    }
    assert Signals(PdfFile, LowerName(file), LowerMime(file));
  }

  lemma LowerOfPdfSuffix(q: string)
    requires q == ".PDF" || q == ".pdf"
    ensures ToLower(q) == ".pdf"
  {
    var l := ToLower(q);
    assert l[0] == LowerChar(q[0]) == '.';
    assert l[1] == LowerChar(q[1]) == 'p';
    assert l[2] == LowerChar(q[2]) == 'd';
    assert l[3] == LowerChar(q[3]) == 'f';
  }

  /** The Word test's second MIME pattern adds nothing: a MIME type that
      includes "officedocument.wordprocessingml.document" includes "word". */
  lemma WordPatternSubsumed(mime: string)
    requires Contains(mime, "officedocument.wordprocessingml.document")
    ensures Contains(mime, "word")
  {
    var long := "officedocument.wordprocessingml.document";
    assert long == "officedocument." + "word" + "processingml.document";
    assert long[15..19] == "word";
    assert OccursAt(long, "word", 15);
    ContainsTransitive(mime, long, "word");
  }

  /** An image MIME type loses to any document signal in the name: a
      "report.docx" sent as "image/png" is read as a Word file. */
  lemma DocumentNameBeatsImageMime(file: UploadedFile)
    requires LowerMime(file) == "image/png"
    requires EndsWith(LowerName(file), ".docx")
    ensures Classify(file) == WordFile
  {
    assert !Contains("image/png", "pdf") by {
      forall i | 0 <= i <= |"image/png"| - 3 ensures !OccursAt("image/png", "pdf", i) {
        assert "image/png"[i..i + 3][2] != 'f';
      }
    }
    assert !EndsWith(LowerName(file), ".pdf") by {
      var n := LowerName(file);
      assert n[|n| - 4] == n[|n| - 5..][1] == 'd';
    }
  }

  // ---------------------------------------------------------------------------
  // The placeholder notices and the length guard

  /** As written, an image upload passes the 20-character guard: the OCR
      notice itself is long enough, so with a key set it is sent to Kimi as
      if it were the report, although the guard's own message names images. */
  lemma ImageUploadReachesKimi(req: Request, libs: Libraries, env: Env, send: Transport)
    requires req.verb == "POST"
    requires AnyUpload(req.files).Normal? && |AnyUpload(req.files).value| > 0
    requires Classify(AnyUpload(req.files).value[0]) == ImageFile
    requires ResolveApiKey(env).Some?
    ensures var x := Handle(req, libs, env, send);
            && x.reply.status != 400
            && x.sent.Some?
            && x.sent.value.messages[1].content == BuildPrompt(OcrNotice)
  {
    assert |OcrNotice| >= MinTextLength;
    assert Prefix(OcrNotice, MaxPromptText) == OcrNotice;
    HandleAfterExtraction(req, libs, env, send, OcrNotice);
  }

  /** As written, whether a file of unsupported type is refused depends on how
      long its MIME type (or name) is: the notice is 14 characters plus that
      string, so anything of 6 or more characters, "unknown" included, is
      sent on to Kimi. */
  lemma UnsupportedNoticeGuard(file: UploadedFile, env: Env, send: Transport)
    requires Classify(file) == UnsupportedFile
    ensures var shown := OrElse([file.mimeType, file.originalName], "unknown");
            (Respond(UnsupportedNotice(file), env, send).reply.status == 400) <==> |shown| < 6
  {
    assert |UnsupportedNoticePrefix| == 14;
  }

  /** What the extractor yields, with the placeholder notices told apart
      from document text. */
  datatype Extraction = DocumentText(text: string) | Notice(message: string)

  /** `extractTextFromUploadedFile` with its two placeholder answers marked as
      notices rather than text. */
  function ExtractDocument(file: UploadedFile, libs: Libraries): (r: Completion<Extraction>)
    ensures r.Abrupt? <==> ExtractText(file, libs).Abrupt?
    ensures r.Normal? ==> ExtractText(file, libs) == Normal(if r.value.DocumentText? then r.value.text else r.value.message)
    ensures r.Normal? ==> (r.value.Notice? <==> Classify(file) in {ImageFile, UnsupportedFile})
  {
    var t :- ExtractText(file, libs);
    if Classify(file) in {ImageFile, UnsupportedFile} then Normal(Notice(t)) else Normal(DocumentText(t))
  }

  /** `handler` as its guard message says it is meant to behave: an image or
      a file of unsupported type is refused with 400 and its notice, and
      only document text is checked for length, clipped and sent to Kimi. */
  function HandleCorrected(req: Request, libs: Libraries, env: Env, send: Transport): (x: Exchange)
    ensures req.verb != "POST" ==> x == Exchange(Reply(405, PlainBody("Method Not Allowed")), None)
    ensures x.reply.body.Success? <==> x.reply.status == 200
    ensures x.reply.status == 400 ==> x.sent.None?
  {
    if req.verb != "POST" then
      Exchange(Reply(405, PlainBody("Method Not Allowed")), None)
    else
      match AnyUpload(req.files)
      case Abrupt(m) => Fail(500, ErrorText(m), None)
      case Normal(files) =>
        if |files| == 0 then Fail(400, NoFileMessage, None)
        else
          match ExtractDocument(files[0], libs)
          case Abrupt(m) => Fail(500, ErrorText(m), None)
          case Normal(Notice(message)) => Fail(400, message, None)
          case Normal(DocumentText(text)) => Respond(text, env, send)
  }

  /** The corrected handler never sends a placeholder notice to Kimi: images
      and unsupported types are answered 400 with their notice. */
  lemma CorrectedRefusesNotices(req: Request, libs: Libraries, env: Env, send: Transport)
    requires req.verb == "POST"
    requires AnyUpload(req.files).Normal? && |AnyUpload(req.files).value| > 0
    requires Classify(AnyUpload(req.files).value[0]) in {ImageFile, UnsupportedFile}
    ensures var x := HandleCorrected(req, libs, env, send);
            && x.reply.status == 400
            && x.sent.None?
            && x.reply.body == Failure(ExtractText(AnyUpload(req.files).value[0], libs).value)
  {
  }

  /** On document uploads (PDF, Word, text) the corrected handler is the
      handler as written. */
  lemma CorrectedAgreesOnDocuments(req: Request, libs: Libraries, env: Env, send: Transport)
    requires req.verb == "POST"
    requires AnyUpload(req.files).Normal? && |AnyUpload(req.files).value| > 0
    requires Classify(AnyUpload(req.files).value[0]) in {PdfFile, WordFile, TextFile}
    ensures HandleCorrected(req, libs, env, send) == Handle(req, libs, env, send)
  {
  }
}
