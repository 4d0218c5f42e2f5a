/** The Express entry point `server.js`: `POST /` takes one upload in the
    field "report", filtered by an exact MIME allowlist, extracts its text by a
    switch over the same MIME strings, truncates it, wraps it with the file name
    in a fixed prompt and sends it to Kimi. Whatever the Kimi call does, the
    client gets a structured analysis: a stub parse of the answer, or a fixed
    mock result when the call fails. */
module Server {
  import opened JsValues
  import opened JsStrings
  import opened Kimi

  // ---------------------------------------------------------------------------
  // Uploads and replies

  /** A file multer stored on disk for the field "report". Reading it back
      (`fs.readFileSync`) gives its bytes or throws. */
  datatype StoredFile = StoredFile(
    originalName: string,
    mimeType: string,
    size: nat,
    disk: Completion<Bytes>)

  /** One section of the structured result. */
  datatype Section = Section(original: string, interpretation: string, keyPoints: seq<string>)

  /** The structured result sent back as `data`. */
  datatype Analysis = Analysis(title: string, summary: string, sections: seq<Section>)

  /** The JSON bodies of the route and of the error middleware. */
  datatype ServerBody =
    | Analyzed(data: Analysis, filename: string)
    | ErrorBody(error: string)
    | ErrorWithMessage(error: string, message: string)

  datatype ServerReply = ServerReply(status: nat, body: ServerBody)

  /** One handled request: the reply, and the request sent to Kimi, if any. */
  datatype ServerExchange = ServerExchange(reply: ServerReply, sent: Option<ChatRequest>)

  /** The result of `analyzeWithKimi`, with the request it sent. */
  datatype KimiAnalysis = KimiAnalysis(result: Analysis, sent: ChatRequest)

  // ---------------------------------------------------------------------------
  // Constants

  /** The MIME type of .docx files. */
  const WordOpenXmlType: string :=
    "application/vnd." + "openxmlformats-officedocument." + "wordprocessingml.document"

  /** The MIME types `fileFilter` lets through, compared exactly. */
  const AllowedTypes: seq<string> := [
    "application/pdf",
    "application/msword",
    WordOpenXmlType,
    "image/jpeg",
    "image/png",
    "image/jpg"
  ]

  /** multer's `limits.fileSize`: 50 MB. */
  const MaxUploadSize: nat := 50 * 1024 * 1024

  const FilterRejectMessage: string := "不支持的文件格式"

  const SwitchRejectMessage: string := "不支持的文件类型"

  const FileTooLargeMessage: string := "File too large"

  /** What the error middleware answers any error passed to it with. */
  const MiddlewareError: string := "服务器错误"

  const NoFileError: string := "请上传文件"

  const ProcessingFailed: string := "处理失败"

  const ExtractionFailedMessage: string := "无法提取文件内容"

  /** What an image yields in place of OCR. */
  const ImagePlaceholder: string := "[图片内容 - 需要OCR识别]"

  /** Text longer than this is cut before it is put into the prompt. */
  const MaxTextLength: nat := 6000

  /** Appended to text that was cut. */
  const TruncationMarker: string := "...[内容被截断]"

  /** The summary keeps at most this many characters of the model's answer. */
  const SummaryLength: nat := 200

  /** `max_tokens` and the client timeout (milliseconds) of the Kimi request. */
  const MaxTokens: nat := 2000

  const TimeoutMs: nat := 120000

  /** The prompt template up to the file name; the file name, a blank line
      and the report text follow it. */
  const ServerPromptHead: string :=
    "【角色设定】你是一位顶级投行宏观策略专家，同时也是一位极其擅长大众科普的财经作家。你的任务是将专业的研报内容，翻译成高中生及零金融基础的散户也能完全听懂的深度解读。\n"
    + "\n"
    + "【核心规则】\n"
    + "1.全文核心总结（置顶输出）：在开始具体段落解读前，必须先用一个段落（200字以内）概括整篇研报的核心结论，让读者一眼看懂这份报告在说什么。\n"
    + "2.全文正文覆盖与原文镜像：\n"
    + "a.必须包含全文正文所有内容，严禁概括、严禁省略、严禁跳段。\n"
    + "b.【原文】模块必须做到一字不差的镜像摘录，严禁对原文做任何删减、改动或逻辑重组。\n"
    + "3.结构对齐：必须严格遵循原文的自然段落结构。每一段落必须按以下格式输出：\n"
    + "a.【原文】：镜像摘录该段落的完整原始文字。\n"
    + "b.【解读（逐句还原段落版）】：针对该段落的每一句话进行大白话转化，严禁漏掉任何逻辑转折和数据，最后汇总成一个完整的段落。\n"
    + "c.【重点数据与逻辑提炼】：使用[关键点]格式列出核心数据、年份或逻辑，并进行深度解释（每段至少列3-5个）。\n"
    + "4.颗粒度要求：解读部分必须做到\"地毯式还原\"，原文中的每一个数字、每一个年份、每一个括号内的备注、每一个逻辑转折都必须在解读中体现。\n"
    + "5.语言风格：\n"
    + "a.严禁使用\"爹味\"说教，严禁使用未解释的金融黑话。\n"
    + "b.使用高中生熟悉的常识进行逻辑推导（如：成本、信心、代价、分家）。\n"
    + "c.语气要客观、专业但易懂。\n"
    + "\n"
    + "以下是研报内容：\n"
    + "\n"
    + "文件名："

  /** The separator between the file name and the report text. */
  const NameSeparator: string := "\n\n"

  /** The fixed sections of every stub-parsed answer. */
  const StubSections: seq<Section> :=
    [Section("原文内容", "解读内容", ["要点1", "要点2", "要点3"])]

  const StubTitle: string := "研报分析结果"

  /** The result returned in place of an analysis when the Kimi call fails. */
  const MockAnalysis: Analysis := Analysis(
    "分析结果",
    "由于API调用失败，返回模拟分析结果。在完整版本中，这里将显示真实的AI分析。",
    [Section(
       "原文：API调用失败，显示模拟内容。",
       "解读：由于网络或API问题，暂时无法提供真实分析。",
       ["API调用失败", "显示模拟结果", "请检查网络连接"])])

  // ---------------------------------------------------------------------------
  // Upload filtering and text extraction

  /** `fileFilter`: exact, case-sensitive membership in the allowlist. */
  predicate FileFilter(mime: string) {
    mime in AllowedTypes
  }

  /** multer's `upload.single('report')` with the filter and the size limit:
      no file part leaves `req.file` undefined; a refused or over-size file
      is an error that bypasses the route. */
  function SingleReport(part: Option<StoredFile>): (r: Completion<Option<StoredFile>>)
    ensures r.Normal? <==> part.None? || (FileFilter(part.value.mimeType) && part.value.size <= MaxUploadSize)
    ensures r.Normal? ==> r.value == part
  {
    match part
    case None => Normal(None)
    case Some(f) =>
      if !FileFilter(f.mimeType) then Abrupt(FilterRejectMessage)
      else if f.size > MaxUploadSize then Abrupt(FileTooLargeMessage)
      else Normal(part)
  }

  /** The cases of the `extractTextFromFile` switch. */
  datatype ServerKind = PdfDocument | WordDocument | ImageDocument | NotSupported

  function Dispatch(mime: string): ServerKind {
    if mime == "application/pdf" then PdfDocument
    else if mime == "application/msword"
         || mime == WordOpenXmlType then WordDocument
    else if mime == "image/jpeg" || mime == "image/png" || mime == "image/jpg" then ImageDocument
    else NotSupported
  }

  /** The filter and the switch agree: a MIME type passes `fileFilter` exactly
      when it reaches a case of the switch other than `default`, so the
      switch's "unsupported type" throw is unreachable for stored uploads. */
  lemma FilterMatchesDispatch(mime: string)
    ensures FileFilter(mime) <==> Dispatch(mime) != NotSupported
  {
  }

  /** Case matters: every allowed type is written in lower case and compared
      exactly, so any spelling that lower-casing would change is refused. */
  lemma FilterIsCaseSensitive(mime: string)
    requires ToLower(mime) != mime
    ensures !FileFilter(mime)
  {
    if FileFilter(mime) {
      AllowedTypesAreLowerCase();
      LowerChangesOnlyCapitals(mime);
    }
  }

  lemma AllowedTypesAreLowerCase()
    ensures forall i :: 0 <= i < |AllowedTypes| ==> HasNoCapitals(AllowedTypes[i])
  {
    ApplicationTypesAreLowerCase();
    WordOpenXmlTypeIsLowerCase();
    ImageTypesAreLowerCase();
  }

  lemma ApplicationTypesAreLowerCase()
    ensures HasNoCapitals("application/pdf") && HasNoCapitals("application/msword")
  {
  }

  lemma WordOpenXmlTypeIsLowerCase()
    ensures HasNoCapitals(WordOpenXmlType)
  {
    var a, b, c := "application/vnd.", "openxmlformats-officedocument.", "wordprocessingml.document";
    assert HasNoCapitals(a) && HasNoCapitals(b) && HasNoCapitals(c);
    NoCapitalsJoin(a, b);
    NoCapitalsJoin(a + b, c);
  }

  lemma ImageTypesAreLowerCase()
    ensures HasNoCapitals("image/jpeg") && HasNoCapitals("image/png") && HasNoCapitals("image/jpg")
  {
  }

  /** A library call with a fallback: the library's text when it succeeds,
      otherwise the file decoded as UTF-8 (`fs.readFileSync(path, 'utf8')`),
      which throws only when the file cannot be read. */
  function WithUtf8Fallback(library: Bytes -> LibOutcome, disk: Completion<Bytes>, decode: Bytes -> string)
    : (r: Completion<Option<string>>)
    ensures r.Abrupt? <==> disk.Abrupt?
    ensures disk.Normal? && library(disk.value).Extracted? ==> r == Normal(library(disk.value).text)
    ensures disk.Normal? && library(disk.value).LibThrew? ==> r == Normal(Some(decode(disk.value)))
  {
    match disk
    case Abrupt(m) => Abrupt(m)
    case Normal(bytes) =>
      match library(bytes)
      case Extracted(t) => Normal(t)
      case LibThrew(_) => Normal(Some(decode(bytes)))
  }

  /** `extractTextFromFile`: the text field of pdf-parse or mammoth (which
      may be undefined), the file read as UTF-8 when the library fails, the
      fixed placeholder for an image, and a throw for any other type or an
      unreadable file. */
  function ExtractTextFromFile(mime: string, disk: Completion<Bytes>, libs: Libraries): (r: Completion<Option<string>>)
    ensures Dispatch(mime) == ImageDocument ==> r == Normal(Some(ImagePlaceholder))
    ensures Dispatch(mime) == NotSupported ==> r == Abrupt(SwitchRejectMessage)
    ensures Dispatch(mime) in {PdfDocument, WordDocument} ==> (r.Abrupt? <==> disk.Abrupt?)
    ensures Dispatch(mime) == PdfDocument && disk.Normal? ==>
              match libs.pdfParse(disk.value)
              case Extracted(t) => r == Normal(t)
              case LibThrew(_) => r == Normal(Some(libs.decodeUtf8(disk.value)))
    ensures Dispatch(mime) == WordDocument && disk.Normal? ==>
              match libs.extractRawText(disk.value)
              case Extracted(t) => r == Normal(t)
              case LibThrew(_) => r == Normal(Some(libs.decodeUtf8(disk.value)))
  {
    match Dispatch(mime)
    case PdfDocument => WithUtf8Fallback(libs.pdfParse, disk, libs.decodeUtf8)
    case WordDocument => WithUtf8Fallback(libs.extractRawText, disk, libs.decodeUtf8)
    case ImageDocument => Normal(Some(ImagePlaceholder))
    case NotSupported => Abrupt(SwitchRejectMessage)
  }

  /** Every stored upload of an image type yields the placeholder, whatever
      the file holds and even when it cannot be read. */
  lemma ImagesYieldPlaceholder(f: StoredFile, libs: Libraries)
    requires SingleReport(Some(f)).Normal?
    requires f.mimeType in {"image/jpeg", "image/png", "image/jpg"}
    ensures ExtractTextFromFile(f.mimeType, f.disk, libs) == Normal(Some(ImagePlaceholder))
  {
  }

  // ---------------------------------------------------------------------------
  // Truncation, prompt and response parsing

  /** The length cut in `analyzeWithKimi`: text of at most 6000 characters is
      kept; longer text becomes its first 6000 characters and the marker. */
  function Truncate(text: string): (r: string)
    ensures |text| <= MaxTextLength ==> r == text
    ensures |text| > MaxTextLength ==>
              |r| == MaxTextLength + |TruncationMarker|
              && r[..MaxTextLength] == text[..MaxTextLength]
              && EndsWith(r, TruncationMarker)
    ensures |r| <= MaxTextLength + |TruncationMarker|
    ensures Prefix(text, MaxTextLength) <= r
  {
    if |text| > MaxTextLength then Prefix(text, MaxTextLength) + TruncationMarker else text
  }

  /** Truncating an already truncated text changes nothing: the marker makes
      it longer than the bound again, and the same 6000 characters are kept. */
  lemma TruncateIdempotent(text: string)
    ensures Truncate(Truncate(text)) == Truncate(text)
  {
    if |text| > MaxTextLength {
      var t := Truncate(text);
      assert Prefix(t, MaxTextLength) == Prefix(text, MaxTextLength);
    }
  }

  /** The boundary is strict: exactly 6000 characters are kept whole, one more
      is cut. */
  lemma TruncateBoundary(text: string)
    ensures |text| == MaxTextLength ==> Truncate(text) == text
    ensures |text| == MaxTextLength + 1 ==> Truncate(text) == text[..MaxTextLength] + TruncationMarker
  {
  }

  /** The prompt of `analyzeWithKimi`. */
  function ServerPrompt(filename: string, text: string): (p: string)
    ensures |p| == |ServerPromptHead| + |filename| + |NameSeparator| + |text|
    ensures StartsWith(p, ServerPromptHead)
    ensures p[|ServerPromptHead|..|ServerPromptHead| + |filename|] == filename
    ensures EndsWith(p, NameSeparator + text)
  {
    var p := ServerPromptHead + filename + NameSeparator + text;
    assert p[..|ServerPromptHead|] == ServerPromptHead;
    p
  }

  /** The report text a prompt carries for a given file name: what follows
      the template, the name and the blank line, if the prompt starts so. */
  function EmbeddedText(prompt: string, filename: string): (r: Option<string>)
    ensures r.Some? <==> StartsWith(prompt, ServerPromptHead + filename + NameSeparator)
    ensures r.Some? ==> prompt == ServerPromptHead + filename + NameSeparator + r.value
  {
    var lead := ServerPromptHead + filename + NameSeparator;
    if StartsWith(prompt, lead) then
      assert prompt == lead + prompt[|lead|..];
      Some(prompt[|lead|..])
    else None
  }

  /** The text is embedded verbatim: reading it back out of the prompt gives
      it unchanged, so different texts give different prompts. */
  lemma ServerPromptRoundTrip(filename: string, text: string)
    ensures EmbeddedText(ServerPrompt(filename, text), filename) == Some(text)
  {
    var lead := ServerPromptHead + filename + NameSeparator;
    assert ServerPrompt(filename, text) == lead + text;
    assert (lead + text)[..|lead|] == lead;
    assert (lead + text)[|lead|..] == text;
  }

  /** `parseKimiResponse`: a fixed title and fixed sections; the summary is
      the first 200 characters of the answer (all of it when shorter)
      followed by "...". */
  function ParseKimiResponse(content: string): (a: Analysis)
    ensures a.title == StubTitle && a.sections == StubSections
    ensures |a.summary| == |Prefix(content, SummaryLength)| + 3
    ensures a.summary[..|a.summary| - 3] <= content
    ensures EndsWith(a.summary, "...")
    ensures |content| <= SummaryLength ==> a.summary == content + "..."
  {
    Analysis(StubTitle, Prefix(content, SummaryLength) + "...", StubSections)
  }

  /** The parse sees only the first 200 characters: answers that agree there
      parse alike. */
  lemma ParseSeesOnlyThePrefix(c1: string, c2: string)
    requires Prefix(c1, SummaryLength) == Prefix(c2, SummaryLength)
    ensures ParseKimiResponse(c1) == ParseKimiResponse(c2)
  {
  }

  /** The request `analyzeWithKimi` sends. */
  function ServerRequest(prompt: string, key: string): ChatRequest {
    ChatRequest(ChatCompletionsUrl, key, DefaultModel, [Message("user", prompt)],
                Temperature, Some(MaxTokens), Some(TimeoutMs))
  }

  /** `analyzeWithKimi`: total. It always sends one request carrying the
      truncated text and the file name; a usable answer is stub-parsed, and
      any failure (HTTP error, transport failure, a missing choice or content)
      yields the fixed mock result. */
  function AnalyzeWithKimi(text: string, filename: string, key: string, send: Transport): (a: KimiAnalysis)
    ensures a.sent.messages == [Message("user", ServerPrompt(filename, Truncate(text)))]
    ensures a.sent.apiKey == key && a.sent.url == ChatCompletionsUrl
    ensures send(a.sent).Answered? && send(a.sent).content.Some? ==>
              a.result == ParseKimiResponse(send(a.sent).content.value)
    ensures !(send(a.sent).Answered? && send(a.sent).content.Some?) ==> a.result == MockAnalysis
  {
    var request := ServerRequest(ServerPrompt(filename, Truncate(text)), key);
    match send(request)
    case Answered(Some(content)) => KimiAnalysis(ParseKimiResponse(content), request)
    case _ => KimiAnalysis(MockAnalysis, request)
  }

  /** The result is the mock exactly when the call failed, as long as a parsed
      answer cannot be mistaken for it (their titles differ). */
  lemma MockOnlyOnFailure(text: string, filename: string, key: string, send: Transport)
    ensures var a := AnalyzeWithKimi(text, filename, key, send);
            (a.result == MockAnalysis) <==> !(send(a.sent).Answered? && send(a.sent).content.Some?)
  {
    assert StubTitle != MockAnalysis.title by {
      assert StubTitle[0] != MockAnalysis.title[0];
    }
  }

  // ---------------------------------------------------------------------------
  // The route

  /** `POST /` with the error middleware behind it. The server starts only
      when `KIMI_API_KEY` is set, and the key is read from there. */
  function ServerHandle(part: Option<StoredFile>, libs: Libraries, env: Env, send: Transport): (x: ServerExchange)
    requires Truthy(EnvGet(env, "KIMI_API_KEY"))
    ensures part.None? ==> x == ServerExchange(ServerReply(400, ErrorBody(NoFileError)), None)
    ensures part.Some? && !FileFilter(part.value.mimeType) ==>
              x == ServerExchange(ServerReply(500, ErrorBody(MiddlewareError)), None)
    ensures x.reply.status == 200 <==> x.sent.Some?
    ensures x.reply.status in {200, 400, 500}
    ensures x.sent.Some? ==> x.sent.value.apiKey == env["KIMI_API_KEY"]
    ensures x.reply.status == 200 ==>
              && part.Some? && x.sent.Some?
              && x.reply.body.Analyzed? && x.reply.body.filename == part.value.originalName
              && var answer := send(x.sent.value);
                 && (answer.Answered? && answer.content.Some? ==>
                       x.reply.body.data == ParseKimiResponse(answer.content.value))
                 && (!(answer.Answered? && answer.content.Some?) ==> x.reply.body.data == MockAnalysis)
  {
    match SingleReport(part)
    case Abrupt(_) => ServerExchange(ServerReply(500, ErrorBody(MiddlewareError)), None)
    case Normal(None) => ServerExchange(ServerReply(400, ErrorBody(NoFileError)), None)
    case Normal(Some(f)) =>
      match ExtractTextFromFile(f.mimeType, f.disk, libs)
      case Normal(Some(text)) =>
        var a := AnalyzeWithKimi(text, f.originalName, env["KIMI_API_KEY"], send);
        ServerExchange(ServerReply(200, Analyzed(a.result, f.originalName)), Some(a.sent))
      case _ =>
        ServerExchange(ServerReply(500, ErrorWithMessage(ProcessingFailed, ExtractionFailedMessage)), None)
  }

  /** An accepted upload whose text was extracted always gets 200 with the
      analysis and its own file name, whatever Kimi does; the prompt carries
      the file name and the truncated text. */
  lemma AcceptedUploadSucceeds(f: StoredFile, libs: Libraries, env: Env, send: Transport, text: string)
    requires Truthy(EnvGet(env, "KIMI_API_KEY"))
    requires SingleReport(Some(f)).Normal?
    requires ExtractTextFromFile(f.mimeType, f.disk, libs) == Normal(Some(text))
    ensures var x := ServerHandle(Some(f), libs, env, send);
            && x.reply.status == 200
            && x.reply.body.Analyzed?
            && x.reply.body == Analyzed(AnalyzeWithKimi(text, f.originalName, env["KIMI_API_KEY"], send).result,
                                        f.originalName)
            && x.sent.Some?
            && EmbeddedText(x.sent.value.messages[0].content, f.originalName) == Some(Truncate(text))
  {
    ServerPromptRoundTrip(f.originalName, Truncate(text));
  }

  /** An accepted image upload always reaches Kimi with the placeholder as
      its text. */
  lemma AcceptedImageSendsPlaceholder(f: StoredFile, libs: Libraries, env: Env, send: Transport)
    requires Truthy(EnvGet(env, "KIMI_API_KEY"))
    requires SingleReport(Some(f)).Normal?
    requires Dispatch(f.mimeType) == ImageDocument
    ensures var x := ServerHandle(Some(f), libs, env, send);
            && x.reply.status == 200
            && x.sent.Some?
            && x.sent.value.messages == [Message("user", ServerPrompt(f.originalName, ImagePlaceholder))]
  {
    assert |ImagePlaceholder| <= MaxTextLength;
  }

  /** An accepted document that cannot be read, or whose library result has
      no text field, is answered 500 with the extraction-failure message. */
  lemma ExtractionFailureIs500(f: StoredFile, libs: Libraries, env: Env, send: Transport)
    requires Truthy(EnvGet(env, "KIMI_API_KEY"))
    requires SingleReport(Some(f)).Normal?
    requires f.disk.Abrupt? || ExtractTextFromFile(f.mimeType, f.disk, libs) == Normal(None)
    requires Dispatch(f.mimeType) in {PdfDocument, WordDocument}
    ensures ServerHandle(Some(f), libs, env, send)
            == ServerExchange(ServerReply(500, ErrorWithMessage(ProcessingFailed, ExtractionFailedMessage)), None)
  {
  }
}
